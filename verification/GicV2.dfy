/** The distributor of a GICv2: its registers hold one bit or one byte for each
    interrupt, packed into words; `gicd_init` and the setters keep them in step with
    a plain table that has a row for each interrupt. */
module GicV2 {
  import opened GicWords

  /** `enabled`, `pending` and `active` are the bits behind the set and clear
      register pairs. */
  datatype Regs = Regs(enabled: seq<Word>, pending: seq<Word>, active: seq<Word>,
                       priority: seq<Word>, target: seq<Word>, config: seq<Word>, ctlr: Word) {
    predicate Shape() {
      && |enabled| == |pending| == |active| == IRQS / 32
      && |priority| == |target| == IRQS / 4
      && |config| == IRQS / 16
    }
  }

  /** The number of interrupts, from the lines field of the type register. */
  function IntNum(typer: nat): (n: nat)
    ensures PRIVATE <= n <= IRQS && n % 32 == 0 && typer % 32 == n / 32 - 1
  {
    (typer % 32 + 1) * 32
  }

  // ---------- the plain table ----------

  datatype Row = Row(enabled: bool, pending: bool, active: bool, priority: Byte, target: Byte)

  /** Where the architecture puts an interrupt: bit `id % 32` of word `id / 32`, and
      the bits from `8 * (id % 4)` on of word `id / 4`. */
  function RowOf(g: Regs, id: nat): (r: Row)
    requires g.Shape() && id < IRQS
  {
    Row(id % 32 in g.enabled[id / 32], id % 32 in g.pending[id / 32], id % 32 in g.active[id / 32],
        ByteAt(g.priority, id), ByteAt(g.target, id))
  }

  function Table(g: Regs): (t: seq<Row>)
    requires g.Shape()
    ensures |t| == IRQS && forall id | 0 <= id < IRQS :: t[id] == RowOf(g, id)
  {
    seq(IRQS, id requires 0 <= id < IRQS => RowOf(g, id))
  }

  // ---------- the setters ----------

  datatype Op =
    | SetTarget(id: nat, v: Byte)
    | SetPriority(id: nat, v: Byte)
    | SetEnable(id: nat, on: bool)
    | SetPending(id: nat, on: bool)

  function WithByte(ws: seq<Word>, id: nat, v: Byte): (ws': seq<Word>)
    requires |ws| == IRQS / 4 && id < IRQS
    ensures |ws'| == |ws|
  {
    ws[ByteReg(id) := PutByte(ws[ByteReg(id)], ByteOff(id), v)]
  }

  function WithBit(ws: seq<Word>, id: nat, on: bool): (ws': seq<Word>)
    requires |ws| == IRQS / 32 && id < IRQS
    ensures |ws'| == |ws|
  {
    ws[IntReg(id) := Written(ws[IntReg(id)], IntMask(id), on)]
  }

  function Apply(g: Regs, op: Op): (g': Regs)
    requires g.Shape() && op.id < IRQS
    ensures g'.Shape()
  {
    match op
    case SetTarget(id, v) => g.(target := WithByte(g.target, id, v))
    case SetPriority(id, v) => g.(priority := WithByte(g.priority, id, v))
    case SetEnable(id, on) => g.(enabled := WithBit(g.enabled, id, on))
    case SetPending(id, on) => g.(pending := WithBit(g.pending, id, on))
  }

  /** The same operation on the plain table: one field of one row. */
  function Assign(t: seq<Row>, op: Op): (t': seq<Row>)
    requires op.id < |t|
    ensures |t'| == |t|
  {
    var r := t[op.id];
    t[op.id := match op
               case SetTarget(_, v) => r.(target := v)
               case SetPriority(_, v) => r.(priority := v)
               case SetEnable(_, on) => r.(enabled := on)
               case SetPending(_, on) => r.(pending := on)]
  }

  lemma WithByteReads(ws: seq<Word>, id: nat, v: Byte, other: nat)
    requires |ws| == IRQS / 4 && id < IRQS && other < IRQS
    ensures ByteAt(WithByte(ws, id, v), other) == if other == id then v else ByteAt(ws, other)
  {
    GetByteFinds(ws, other);
    GetByteFinds(WithByte(ws, id, v), other);
    if ByteReg(other) == ByteReg(id) {
      ByteSlots(id, other);
      PutGet(ws[ByteReg(id)], ByteOff(id), v, ByteOff(other));
    }
  }

  lemma WithBitReads(ws: seq<Word>, id: nat, on: bool, other: nat)
    requires |ws| == IRQS / 32 && id < IRQS && other < IRQS
    ensures other % 32 in WithBit(ws, id, on)[other / 32] <==> if other == id then on else other % 32 in ws[other / 32]
  {
    if IntReg(other) == IntReg(id) {
      SameRegister(id, other);
    }
  }

  lemma ApplyAssigns(g: Regs, op: Op)
    requires g.Shape() && op.id < IRQS
    ensures Table(Apply(g, op)) == Assign(Table(g), op)
  {
    forall other | 0 <= other < IRQS
      ensures RowOf(Apply(g, op), other) == Assign(Table(g), op)[other]
    {
      match op
      case SetTarget(id, v) => WithByteReads(g.target, id, v, other);
      case SetPriority(id, v) => WithByteReads(g.priority, id, v, other);
      case SetEnable(id, on) => WithBitReads(g.enabled, id, on, other);
      case SetPending(id, on) => WithBitReads(g.pending, id, on, other);
    }
  }

  function Run(g: Regs, ops: seq<Op>): (g': Regs)
    requires g.Shape() && forall op | op in ops :: op.id < IRQS
    ensures g'.Shape()
    decreases |ops|
  {
    if ops == [] then g else Run(Apply(g, ops[0]), ops[1..])
  }

  function Assigned(t: seq<Row>, ops: seq<Op>): (t': seq<Row>)
    requires forall op | op in ops :: op.id < |t|
    decreases |ops|
  {
    if ops == [] then t else Assigned(Assign(t, ops[0]), ops[1..])
  }

  /** The packed registers refine the plain table under every run of setters. */
  lemma {:induction false} RegistersRefineTable(g: Regs, ops: seq<Op>)
    requires g.Shape() && forall op | op in ops :: op.id < IRQS
    ensures Table(Run(g, ops)) == Assigned(Table(g), ops)
    decreases |ops|
  {
    if ops != [] {
      ApplyAssigns(g, ops[0]);
      RegistersRefineTable(Apply(g, ops[0]), ops[1..]);
    }
  }

  /** The table loses nothing: register states with the same table agree in every
      word of the five banks it shows. */
  lemma TableDecidesWords(g: Regs, h: Regs)
    requires g.Shape() && h.Shape() && Table(g) == Table(h)
    ensures g.enabled == h.enabled && g.pending == h.pending && g.active == h.active
    ensures g.priority == h.priority && g.target == h.target
  {
    forall k: nat, b: nat | k < IRQS / 32 && b < 32
      ensures b in g.enabled[k] <==> b in h.enabled[k]
      ensures b in g.pending[k] <==> b in h.pending[k]
      ensures b in g.active[k] <==> b in h.active[k]
    {
      assert RowOf(g, 32 * k + b) == Table(g)[32 * k + b] == RowOf(h, 32 * k + b);
      assert (32 * k + b) / 32 == k && (32 * k + b) % 32 == b;
    }
    forall k: nat | k < IRQS / 32
      ensures g.enabled[k] == h.enabled[k] && g.pending[k] == h.pending[k] && g.active[k] == h.active[k]
    {
    }
    forall k: nat | k < IRQS / 4
      ensures g.priority[k] == h.priority[k] && g.target[k] == h.target[k]
    {
      forall id: nat | id / 4 == k
        ensures ByteAt(g.priority, id) == ByteAt(h.priority, id) && ByteAt(g.target, id) == ByteAt(h.target, id)
      {
        assert RowOf(g, id) == Table(g)[id] == RowOf(h, id);
      }
      BytesDecideWord(g.priority, h.priority, k);
      BytesDecideWord(g.target, h.target, k);
    }
  }

  lemma BytesDecideWord(ws: seq<Word>, vs: seq<Word>, k: nat)
    requires k < |ws| == |vs| && forall id: nat | id / 4 == k :: ByteAt(ws, id) == ByteAt(vs, id)
    ensures ws[k] == vs[k]
  {
    forall b | b in ALL_ONES
      ensures b in ws[k] <==> b in vs[k]
    {
      var id := BitOfByte(ws, k, b);
      var id' := BitOfByte(vs, k, b);
      assert ByteAt(ws, id) == ByteAt(vs, id);
    }
  }

  lemma BitOfByte(ws: seq<Word>, k: nat, b: nat) returns (id: nat)
    requires k < |ws| && b < 32
    ensures id == 4 * k + b / 8 && id / 4 == k && (b in ws[k] <==> b % 8 in ByteAt(ws, id))
  {
    id := 4 * k + b / 8;
    assert id / 4 == k && id % 4 == b / 8;
    assert b == 8 * (b / 8) + b % 8;
  }

  // ---------- gicd_init ----------

  /** The row every implemented shared interrupt starts from. */
  const UNUSED: Row := Row(false, false, false, LOWEST_PRIORITY, {})

  /** What `gicd_init` makes of the registers when `n` interrupts are implemented. */
  ghost predicate Initialised(g: Regs, g': Regs, n: nat)
    requires g.Shape() && g'.Shape() && n <= IRQS
  {
    && Filled(g.enabled, g'.enabled, 1, n / 32, {})
    && Filled(g.pending, g'.pending, 1, n / 32, {})
    && Filled(g.active, g'.active, 1, n / 32, {})
    && Filled(g.priority, g'.priority, 0, n / 4, ALL_ONES)
    && Filled(g.target, g'.target, 0, n / 4, {})
  }

  /** The words from `lo` to `hi` are `w`, and the others are as they were. */
  ghost predicate Filled(ws: seq<Word>, ws': seq<Word>, lo: nat, hi: nat, w: Word) {
    && |ws'| == |ws|
    && forall k | 0 <= k < |ws'| :: ws'[k] == if lo <= k < hi then w else ws[k]
  }

  /** After `gicd_init` every implemented shared interrupt is disabled, not pending,
      not active, at the lowest priority and targets nobody; the interrupts past the
      implemented ones are untouched, and of the private ones only priority and target. */
  lemma InitialisedTable(g: Regs, g': Regs, typer: nat, id: nat)
    requires g.Shape() && g'.Shape() && id < IRQS && Initialised(g, g', IntNum(typer))
    ensures RowOf(g', id) ==
            if id >= IntNum(typer) then RowOf(g, id)
            else if id >= PRIVATE then UNUSED
            else RowOf(g, id).(priority := LOWEST_PRIORITY, target := {})
  {
    var n := IntNum(typer);
    assert id < n <==> IntReg(id) < n / 32;
    assert id < n <==> ByteReg(id) < n / 4;
    assert id >= PRIVATE <==> IntReg(id) >= 1;
    OnesAndZeroes(ByteOff(id));
  }

  // ---------- the driver ----------

  /** The registers in place. */
  class Distributor {
    const enabled: array<Word>
    const pending: array<Word>
    const active: array<Word>
    const priority: array<Word>
    const target: array<Word>
    const config: array<Word>
    const typer: nat
    var ctlr: Word

    ghost predicate Valid() {
      && enabled.Length == pending.Length == active.Length == IRQS / 32
      && priority.Length == target.Length == IRQS / 4
      && config.Length == IRQS / 16
      && enabled != pending && enabled != active && pending != active && priority != target
    }

    ghost function State(): (g: Regs)
      reads this, enabled, pending, active, priority, target, config
      requires Valid()
      ensures g.Shape()
    {
      Regs(enabled[..], pending[..], active[..], priority[..], target[..], config[..], ctlr)
    }

    constructor (typer: nat, enabled: array<Word>, pending: array<Word>, active: array<Word>,
                 priority: array<Word>, target: array<Word>, config: array<Word>)
      requires enabled.Length == pending.Length == active.Length == IRQS / 32
      requires priority.Length == target.Length == IRQS / 4 && config.Length == IRQS / 16
      requires enabled != pending && enabled != active && pending != active && priority != target
      ensures Valid() && this.typer == typer
      ensures State() == Regs(enabled[..], pending[..], active[..], priority[..], target[..], config[..], {})
    {
      this.typer, this.ctlr := typer, {};
      this.enabled, this.pending, this.active := enabled, pending, active;
      this.priority, this.target, this.config := priority, target, config;
    }

    /** `gicd_init`. */
    method Init()
      requires Valid()
      modifies this`ctlr, enabled, pending, active, priority, target, config
      ensures Initialised(old(State()), State(), IntNum(typer))
      ensures Filled(old(config[..]), config[..], 0, IntNum(typer) / 16, set b | b in ALL_ONES && b % 2 == 1)
      ensures ctlr == old(ctlr) + {0}
      ensures forall id | PRIVATE <= id < IntNum(typer) :: RowOf(State(), id) == UNUSED
    {
      var n := IntNum(typer);
      ClearStates(n / 32);
      Fill(priority, n / 4, ALL_ONES);
      Fill(target, n / 4, {});
      Fill(config, n / 16, set b | b in ALL_ONES && b % 2 == 1);
      ctlr := ctlr + {0};
      forall id | 0 <= id < n
        ensures id >= PRIVATE ==> RowOf(State(), id) == UNUSED
      {
        InitialisedTable(old(State()), State(), typer, id);
      }
    }

    /** The first loop: all ones into the clear registers of the shared interrupts. */
    method ClearStates(hi: nat)
      requires Valid() && 1 <= hi <= IRQS / 32
      modifies enabled, pending, active
      ensures Filled(old(enabled[..]), enabled[..], 1, hi, {})
      ensures Filled(old(pending[..]), pending[..], 1, hi, {})
      ensures Filled(old(active[..]), active[..], 1, hi, {})
    {
      var i := 1;
      while i < hi
        invariant 1 <= i <= hi
        invariant Filled(old(enabled[..]), enabled[..], 1, i, {})
        invariant Filled(old(pending[..]), pending[..], 1, i, {})
        invariant Filled(old(active[..]), active[..], 1, i, {})
      {
        enabled[i] := Written(enabled[i], ALL_ONES, false);
        pending[i] := Written(pending[i], ALL_ONES, false);
        active[i] := Written(active[i], ALL_ONES, false);
        i := i + 1;
      }
    }

    /** One of the loops that store the same word into the first `n` registers of a bank. */
    method Fill(words: array<Word>, n: nat, w: Word)
      requires n <= words.Length
      modifies words
      ensures Filled(old(words[..]), words[..], 0, n, w)
    {
      var i := 0;
      while i < n
        invariant 0 <= i <= n
        invariant Filled(old(words[..]), words[..], 0, i, w)
      {
        words[i] := w;
        i := i + 1;
      }
    }

    method SetTargets(id: nat, v: Byte)
      requires Valid() && id < IRQS
      modifies target
      ensures State() == Apply(old(State()), SetTarget(id, v))
      ensures Table(State()) == Assign(Table(old(State())), SetTarget(id, v))
    {
      ApplyAssigns(State(), SetTarget(id, v));
      var reg, off := ByteReg(id), ByteOff(id);
      target[reg] := PutByte(target[reg], off, v);
    }

    method GetTargets(id: nat) returns (v: Byte)
      requires Valid() && id < IRQS
      ensures v == Table(State())[id].target
    {
      GetByteFinds(target[..], id);
      v := GetByte(target[ByteReg(id)], ByteOff(id));
    }

    method SetPrio(id: nat, v: Byte)
      requires Valid() && id < IRQS
      modifies priority
      ensures State() == Apply(old(State()), SetPriority(id, v))
      ensures Table(State()) == Assign(Table(old(State())), SetPriority(id, v))
    {
      ApplyAssigns(State(), SetPriority(id, v));
      var reg, off := ByteReg(id), ByteOff(id);
      priority[reg] := PutByte(priority[reg], off, v);
    }

    method Enable(id: nat, on: bool)
      requires Valid() && id < IRQS
      modifies enabled
      ensures State() == Apply(old(State()), SetEnable(id, on))
      ensures Table(State()) == Assign(Table(old(State())), SetEnable(id, on))
    {
      ApplyAssigns(State(), SetEnable(id, on));
      enabled[IntReg(id)] := Written(enabled[IntReg(id)], IntMask(id), on);
    }

    method SetPend(id: nat, on: bool)
      requires Valid() && id < IRQS
      modifies pending
      ensures State() == Apply(old(State()), SetPending(id, on))
      ensures Table(State()) == Assign(Table(old(State())), SetPending(id, on))
    {
      ApplyAssigns(State(), SetPending(id, on));
      pending[IntReg(id)] := Written(pending[IntReg(id)], IntMask(id), on);
    }
  }
}
