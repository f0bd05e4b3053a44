/** `main`: the primary hart registers the interrupt handlers and then raises
    `master_done`; every hart waits for it.  The primary's timer handler sends an
    inter-processor interrupt to the next hart, and the IPI handler passes it on. */
module Relay {

  /** Where a hart is in `main`.  The first six places belong to the primary. */
  datatype Pc = Start | SetUart | SetTimer | SetIpi | EnableTimer | RaiseDone | EnableIpi | AwaitDone | Up

  /** What a hart's exception handler is doing: nothing, about to send, or about to
      clear the pending bit. */
  datatype Trap = Idle | TimerSend | IpiSend | IpiClear

  /** `uart`, `timer`, `ipi` say which handlers are registered.  `ticks`, `handled`,
      `sends` and `merged` are history: timer interrupts handled, IPIs handled, IPIs
      sent to each hart, and those among them that found one pending already. */
  datatype System = System(primary: nat, done: bool, uart: bool, timer: bool, ipi: bool,
                           pc: seq<Pc>, trap: seq<Trap>, timerOn: seq<bool>, ipiOn: seq<bool>, pending: seq<bool>,
                           ticks: seq<nat>, handled: seq<nat>, sends: seq<nat>, merged: seq<nat>) {
    predicate Shape() {
      && primary < |pc|
      && |pc| == |trap| == |timerOn| == |ipiOn| == |pending| == |ticks| == |handled| == |sends|
      && |merged| == |pc|
    }
  }

  /** A step of `main`, a timer interrupt, a pending IPI taken, or a step of the
      handler that is running. */
  datatype Event = Main(h: nat) | Tick(h: nat) | TakeIpi(h: nat) | Handler(h: nat)

  predicate Enabled(s: System, e: Event)
    requires s.Shape()
  {
    e.h < |s.pc| &&
    match e
    case Main(h) => s.trap[h] == Idle && s.pc[h] != Up
    case Tick(h) => s.trap[h] == Idle && s.timerOn[h]
    case TakeIpi(h) => s.trap[h] == Idle && s.ipiOn[h] && s.pending[h]
    case Handler(h) => s.trap[h] != Idle
  }

  function Apply(s: System, e: Event): (s': System)
    requires s.Shape() && Enabled(s, e)
    ensures s'.Shape() && |s'.pc| == |s.pc| && s'.primary == s.primary
  {
    match e
    case Main(h) => MainStep(s, h)
    case Tick(h) =>
      // an interrupt whose handler is not registered is ignored
      if !s.timer then s else s.(trap := s.trap[h := TimerSend], ticks := s.ticks[h := s.ticks[h] + 1])
    case TakeIpi(h) =>
      if !s.ipi then s.(trap := s.trap[h := IpiClear])
      else s.(trap := s.trap[h := IpiSend], handled := s.handled[h := s.handled[h] + 1])
    case Handler(h) =>
      match s.trap[h]
      case TimerSend => PassedOn(s, h, Idle)
      case IpiSend => PassedOn(s, h, IpiClear)
      case IpiClear => s.(pending := s.pending[h := false], trap := s.trap[h := Idle])
      case Idle => s
  }

  function MainStep(s: System, h: nat): (s': System)
    requires s.Shape() && h < |s.pc|
    ensures s'.Shape() && |s'.pc| == |s.pc| && s'.primary == s.primary
  {
    s.(pc := s.pc[h := Next(s, h)],
       uart := s.uart || s.pc[h] == SetUart,
       timer := s.timer || s.pc[h] == SetTimer,
       ipi := s.ipi || s.pc[h] == SetIpi,
       timerOn := s.timerOn[h := s.timerOn[h] || s.pc[h] == EnableTimer],
       done := s.done || s.pc[h] == RaiseDone,
       ipiOn := s.ipiOn[h := s.ipiOn[h] || s.pc[h] == EnableIpi])
  }

  /** Where hart `h` goes next in `main`. */
  function Next(s: System, h: nat): (pc: Pc)
    requires s.Shape() && h < |s.pc|
  {
    match s.pc[h]
    case Start => if h == s.primary then SetUart else EnableIpi
    case SetUart => SetTimer
    case SetTimer => SetIpi
    case SetIpi => EnableTimer
    case EnableTimer => RaiseDone
    case RaiseDone => EnableIpi
    case EnableIpi => AwaitDone
    case AwaitDone => if s.done then Up else AwaitDone
    case Up => Up
  }

  /** An IPI sent to hart `t`; the firmware refuses a hart that does not exist, and
      an IPI already pending is not queued twice. */
  function Sent(s: System, t: nat): (s': System)
    requires s.Shape()
    ensures s'.Shape() && |s'.pc| == |s.pc| && s'.primary == s.primary
  {
    if t >= |s.pc| then s
    else s.(pending := s.pending[t := true],
            sends := s.sends[t := s.sends[t] + 1],
            merged := if s.pending[t] then s.merged[t := s.merged[t] + 1] else s.merged)
  }

  predicate Initial(s: System) {
    && s.Shape() && !s.done && !s.uart && !s.timer && !s.ipi
    && forall h | 0 <= h < |s.pc| ::
         && s.pc[h] == Start && s.trap[h] == Idle && !s.timerOn[h] && !s.ipiOn[h] && !s.pending[h]
         && s.ticks[h] == 0 && s.handled[h] == 0 && s.sends[h] == 0 && s.merged[h] == 0
  }

  // ---------- the handshake ----------

  /** How far the primary has come, and nobody else registers anything. */
  predicate Handshake(s: System)
    requires s.Shape()
  {
    var p := s.pc[s.primary];
    && (forall h | 0 <= h < |s.pc| && h != s.primary :: s.pc[h] in {Start, EnableIpi, AwaitDone, Up})
    && (s.uart <==> p !in {Start, SetUart})
    && (s.timer <==> p !in {Start, SetUart, SetTimer})
    && (s.ipi <==> p !in {Start, SetUart, SetTimer, SetIpi})
    && (s.timerOn[s.primary] <==> p !in {Start, SetUart, SetTimer, SetIpi, EnableTimer})
    && (s.done <==> p in {EnableIpi, AwaitDone, Up})
    && (forall h | 0 <= h < |s.pc| :: s.pc[h] == Up ==> s.done)
    && (forall h | 0 <= h < |s.pc| :: s.ipiOn[h] <==> s.pc[h] in {AwaitDone, Up})
  }

  // ---------- the relay ----------

  /** Only the primary ticks, no hart up to the primary is ever sent an IPI, and
      there is traffic only once the handlers are registered.  An IPI stays pending
      while it is handled. */
  predicate Quiet(s: System, h: nat)
    requires s.Shape() && h < |s.pc|
  {
    && (h != s.primary ==> !s.timerOn[h] && s.trap[h] != TimerSend && s.ticks[h] == 0)
    && (h <= s.primary ==>
          s.sends[h] == 0 && !s.pending[h] && s.handled[h] == 0 && s.trap[h] != IpiSend && s.trap[h] != IpiClear)
    && (s.timerOn[h] || s.trap[h] != Idle || s.pending[h] ==> s.timer && s.ipi)
    && (s.trap[h] == IpiSend || s.trap[h] == IpiClear ==> s.pending[h])
  }

  /** The exact account of a hart above the primary: what it was sent it has handled,
      has waiting, or found merged with one that was waiting or being handled; and it
      was sent all that its predecessor counted, but for one not yet passed on. */
  predicate Linked(s: System, h: nat)
    requires s.Shape() && s.primary < h < |s.pc|
  {
    && s.sends[h] == s.handled[h] + Waiting(s, h) + s.merged[h]
    && s.sends[h] + Owed(s, h - 1) == Passed(s, h - 1)
  }

  predicate Fine(s: System, h: nat)
    requires s.Shape() && h < |s.pc|
  {
    Quiet(s, h) && (h > s.primary ==> Linked(s, h))
  }

  predicate Relayed(s: System)
    requires s.Shape()
  {
    forall h | 0 <= h < |s.pc| :: Fine(s, h)
  }

  /** 1 for an IPI that is pending and not yet counted as handled. */
  function Waiting(s: System, h: nat): nat
    requires s.Shape() && h < |s.pc|
  {
    if s.pending[h] && s.trap[h] != IpiSend && s.trap[h] != IpiClear then 1 else 0
  }

  /** 1 for a message that hart `h` has counted and not yet passed on. */
  function Owed(s: System, h: nat): nat
    requires s.Shape() && h < |s.pc|
  {
    if s.trap[h] == IpiSend || s.trap[h] == TimerSend then 1 else 0
  }

  /** What hart `h` has handled that it passes on. */
  function Passed(s: System, h: nat): nat
    requires s.Shape() && h < |s.pc|
  {
    if h == s.primary then s.ticks[h] else s.handled[h]
  }

  predicate Inv(s: System) {
    s.Shape() && Handshake(s) && Relayed(s)
  }

  lemma StepKeepsHandshake(s: System, e: Event)
    requires s.Shape() && Handshake(s) && Enabled(s, e)
    ensures Handshake(Apply(s, e))
  {
    if e.Main? {
      MainKeepsHandshake(s, e.h);
    }
  }

  lemma MainKeepsHandshake(s: System, g: nat)
    requires s.Shape() && Handshake(s) && g < |s.pc|
    ensures Handshake(MainStep(s, g))
  {
  }

  /** A step of `main` leaves the interrupt side of the state alone, but for the
      primary enabling its timer. */
  lemma MainFrame(s: System, g: nat)
    requires s.Shape() && Handshake(s) && g < |s.pc|
    ensures SameTraffic(s, MainStep(s, g))
  {
  }

  ghost predicate SameTraffic(s: System, t: System)
    requires s.Shape()
  {
    && t.Shape() && |t.pc| == |s.pc| && t.primary == s.primary
    && t.trap == s.trap && t.pending == s.pending && t.ticks == s.ticks && t.handled == s.handled
    && t.sends == s.sends && t.merged == s.merged && (s.timer ==> t.timer) && (s.ipi ==> t.ipi)
    && (t.timerOn[s.primary] ==> t.timer && t.ipi)
    && forall h | 0 <= h < |s.pc| && h != s.primary :: t.timerOn[h] == s.timerOn[h]
  }

  lemma TrafficKeepsFine(s: System, t: System, h: nat)
    requires s.Shape() && SameTraffic(s, t) && h < |s.pc| && Fine(s, h)
    ensures Fine(t, h)
  {
  }

  lemma TickKeepsFine(s: System, g: nat, h: nat)
    requires s.Shape() && Enabled(s, Tick(g)) && h < |s.pc| && Fine(s, h) && Fine(s, g)
    ensures Fine(Apply(s, Tick(g)), h)
  {
  }

  lemma TakeKeepsFine(s: System, g: nat, h: nat)
    requires s.Shape() && Enabled(s, TakeIpi(g)) && h < |s.pc| && Fine(s, h) && Fine(s, g)
    ensures Fine(Apply(s, TakeIpi(g)), h)
  {
  }

  /** Passing a message on: `next` is where the handler goes afterwards. */
  function PassedOn(s: System, g: nat, next: Trap): (t: System)
    requires s.Shape() && g < |s.pc|
    ensures t.Shape() && |t.pc| == |s.pc| && t.primary == s.primary
  {
    Sent(s, g + 1).(trap := s.trap[g := next])
  }

  lemma SendKeepsQuiet(s: System, g: nat, h: nat, next: Trap)
    requires s.Shape() && g < |s.pc| && h < |s.pc| && Quiet(s, h) && Quiet(s, g)
    requires (s.trap[g] == TimerSend && next == Idle) || (s.trap[g] == IpiSend && next == IpiClear)
    ensures Quiet(PassedOn(s, g, next), h)
  {
  }

  lemma SendKeepsLinked(s: System, g: nat, h: nat, next: Trap)
    requires s.Shape() && g < |s.pc| && s.primary < h < |s.pc| && Linked(s, h) && Quiet(s, h)
    requires (s.trap[g] == TimerSend && next == Idle && g <= s.primary) || (s.trap[g] == IpiSend && next == IpiClear)
    ensures Linked(PassedOn(s, g, next), h)
  {
    var t := PassedOn(s, g, next);
    if h == g + 1 {
      assert Owed(s, g) == 1 && Owed(t, g) == 0;
    } else {
      assert t.sends[h] == s.sends[h];
    }
  }

  lemma HandlerKeepsFine(s: System, g: nat, h: nat)
    requires s.Shape() && Enabled(s, Handler(g)) && h < |s.pc| && Fine(s, h) && Fine(s, g)
    ensures Fine(Apply(s, Handler(g)), h)
  {
    match s.trap[g]
    case TimerSend =>
      SendKeepsQuiet(s, g, h, Idle);
      if h > s.primary { SendKeepsLinked(s, g, h, Idle); }
    case IpiSend =>
      SendKeepsQuiet(s, g, h, IpiClear);
      if h > s.primary { SendKeepsLinked(s, g, h, IpiClear); }
    case IpiClear => ClearKeepsFine(s, g, h);
  }

  lemma ClearKeepsFine(s: System, g: nat, h: nat)
    requires s.Shape() && Enabled(s, Handler(g)) && s.trap[g] == IpiClear && h < |s.pc| && Fine(s, h)
    ensures Fine(Apply(s, Handler(g)), h)
  {
  }

  lemma StepKeepsRelay(s: System, e: Event)
    requires Inv(s) && Enabled(s, e)
    ensures Relayed(Apply(s, e))
  {
    forall h | 0 <= h < |s.pc|
      ensures Fine(Apply(s, e), h)
    {
      match e
      case Main(g) =>
        MainFrame(s, g);
        TrafficKeepsFine(s, MainStep(s, g), h);
      case Tick(g) => TickKeepsFine(s, g, h);
      case TakeIpi(g) => TakeKeepsFine(s, g, h);
      case Handler(g) => HandlerKeepsFine(s, g, h);
    }
  }

  predicate Possible(s: System, es: seq<Event>)
    requires s.Shape()
    decreases |es|
  {
    es == [] || (Enabled(s, es[0]) && Possible(Apply(s, es[0]), es[1..]))
  }

  function After(s: System, es: seq<Event>): (s': System)
    requires s.Shape() && Possible(s, es)
    ensures s'.Shape() && |s'.pc| == |s.pc| && s'.primary == s.primary
    decreases |es|
  {
    if es == [] then s else After(Apply(s, es[0]), es[1..])
  }

  lemma {:induction false} RunKeepsInv(s: System, es: seq<Event>)
    requires Inv(s) && Possible(s, es)
    ensures Inv(After(s, es))
    decreases |es|
  {
    if es != [] {
      StepKeepsHandshake(s, es[0]);
      StepKeepsRelay(s, es[0]);
      RunKeepsInv(Apply(s, es[0]), es[1..]);
    }
  }

  // ---------- the counts are those of the run ----------

  /** Hart `h` sends an IPI in this event, for a timer tick or for an IPI. */
  predicate SendsIn(s: System, e: Event, h: nat)
    requires s.Shape()
  {
    e == Handler(h) && h < |s.pc| && (s.trap[h] == TimerSend || s.trap[h] == IpiSend)
  }

  /** How often hart `h` takes a timer interrupt that has a handler. */
  function TicksOf(s: System, es: seq<Event>, h: nat): nat
    requires s.Shape() && Possible(s, es)
    decreases |es|
  {
    if es == [] then 0
    else (if es[0] == Tick(h) && s.timer then 1 else 0) + TicksOf(Apply(s, es[0]), es[1..], h)
  }

  /** How often hart `h` takes an IPI that has a handler. */
  function TakesOf(s: System, es: seq<Event>, h: nat): nat
    requires s.Shape() && Possible(s, es)
    decreases |es|
  {
    if es == [] then 0
    else (if es[0] == TakeIpi(h) && s.ipi then 1 else 0) + TakesOf(Apply(s, es[0]), es[1..], h)
  }

  /** How often hart `h` sends the next hart an IPI; `merged` counts those that find
      one pending there already. */
  function SendsOf(s: System, es: seq<Event>, h: nat, merged: bool): nat
    requires s.Shape() && Possible(s, es) && h + 1 < |s.pc|
    decreases |es|
  {
    if es == [] then 0
    else (if SendsIn(s, es[0], h) && (merged ==> s.pending[h + 1]) then 1 else 0)
         + SendsOf(Apply(s, es[0]), es[1..], h, merged)
  }

  lemma SendCounts(s: System, g: nat, h: nat, next: Trap)
    requires s.Shape() && g < |s.pc| && h + 1 < |s.pc|
    ensures var t := PassedOn(s, g, next);
            && t.sends[h + 1] == s.sends[h + 1] + (if g == h then 1 else 0)
            && t.merged[h + 1] == s.merged[h + 1] + if g == h && s.pending[h + 1] then 1 else 0
  {
  }

  lemma StepSends(s: System, e: Event, h: nat)
    requires s.Shape() && Enabled(s, e) && h + 1 < |s.pc|
    ensures Apply(s, e).sends[h + 1] == s.sends[h + 1] + (if SendsIn(s, e, h) then 1 else 0)
    ensures Apply(s, e).merged[h + 1] == s.merged[h + 1] + if SendsIn(s, e, h) && s.pending[h + 1] then 1 else 0
  {
    if e.Handler? {
      match s.trap[e.h]
      case TimerSend => SendCounts(s, e.h, h, Idle);
      case IpiSend => SendCounts(s, e.h, h, IpiClear);
      case IpiClear =>
    }
  }

  lemma StepTicks(s: System, e: Event, h: nat)
    requires s.Shape() && Enabled(s, e) && h < |s.pc|
    ensures Apply(s, e).ticks[h] == s.ticks[h] + if e == Tick(h) && s.timer then 1 else 0
  {
  }

  lemma StepTakes(s: System, e: Event, h: nat)
    requires s.Shape() && Enabled(s, e) && h < |s.pc|
    ensures Apply(s, e).handled[h] == s.handled[h] + if e == TakeIpi(h) && s.ipi then 1 else 0
  {
  }

  /** The histories in the state count the events of the run. */
  lemma {:induction false} HistoriesAreTrue(s: System, es: seq<Event>, h: nat)
    requires s.Shape() && Possible(s, es) && h < |s.pc|
    ensures After(s, es).ticks[h] == s.ticks[h] + TicksOf(s, es, h)
    ensures After(s, es).handled[h] == s.handled[h] + TakesOf(s, es, h)
    ensures h + 1 < |s.pc| ==>
              && After(s, es).sends[h + 1] == s.sends[h + 1] + SendsOf(s, es, h, false)
              && After(s, es).merged[h + 1] == s.merged[h + 1] + SendsOf(s, es, h, true)
    decreases |es|
  {
    if es != [] {
      StepTicks(s, es[0], h);
      StepTakes(s, es[0], h);
      if h + 1 < |s.pc| { StepSends(s, es[0], h); }
      HistoriesAreTrue(Apply(s, es[0]), es[1..], h);
    }
  }

  // ---------- main results ----------

  lemma StartsFine(s: System)
    requires Initial(s)
    ensures Inv(s)
  {
    forall h | 0 <= h < |s.pc|
      ensures Fine(s, h)
    {
    }
  }

  /** Over every interleaving: a hart past the wait sees all three handlers
      registered; only the primary handles timer interrupts; and only harts above the
      primary handle IPIs. */
  lemma HandshakeAndRelay(s: System, es: seq<Event>)
    requires Initial(s) && Possible(s, es)
    ensures var t := After(s, es);
            && (forall h | 0 <= h < |t.pc| && t.pc[h] == Up :: t.uart && t.timer && t.ipi)
            && (forall h | 0 <= h < |t.pc| && TicksOf(s, es, h) > 0 :: h == t.primary)
            && (forall h | 0 <= h < |t.pc| && TakesOf(s, es, h) > 0 :: h > t.primary)
  {
    StartsFine(s);
    RunKeepsInv(s, es);
    var t := After(s, es);
    forall h | 0 <= h < |t.pc|
      ensures TicksOf(s, es, h) > 0 ==> h == t.primary
      ensures TakesOf(s, es, h) > 0 ==> h > t.primary
    {
      assert Fine(t, h);
      HistoriesAreTrue(s, es, h);
    }
  }

  /** The exact account over every interleaving, for a hart `h` with a hart after it,
      from the primary on: each timer tick, or each IPI taken, is passed on once, but
      for one that the handler has yet to send; and of what is passed on the next hart
      takes all but one that is pending there and those that were merged. */
  lemma RelayAccount(s: System, es: seq<Event>, h: nat)
    requires Initial(s) && Possible(s, es) && s.primary <= h && h + 1 < |s.pc|
    ensures var t := After(s, es);
            && SendsOf(s, es, h, false) + Owed(t, h) ==
               (if h == s.primary then TicksOf(s, es, h) else TakesOf(s, es, h))
            && SendsOf(s, es, h, false) == TakesOf(s, es, h + 1) + Waiting(t, h + 1) + SendsOf(s, es, h, true)
  {
    StartsFine(s);
    RunKeepsInv(s, es);
    assert Fine(After(s, es), h + 1);
    HistoriesAreTrue(s, es, h);
    HistoriesAreTrue(s, es, h + 1);
  }

  lemma TakesBound(s: System, es: seq<Event>, h: nat)
    requires Initial(s) && Possible(s, es) && s.primary <= h && h + 1 < |s.pc|
    ensures TakesOf(s, es, h + 1) <= if h == s.primary then TicksOf(s, es, h) else TakesOf(s, es, h)
  {
    RelayAccount(s, es, h);
  }

  /** So no hart ever handles more IPIs than the primary's timer has ticked. */
  lemma {:induction false} NeverMoreThanTicks(s: System, es: seq<Event>, h: nat)
    requires Initial(s) && Possible(s, es) && s.primary < h < |s.pc|
    ensures TakesOf(s, es, h) <= TicksOf(s, es, s.primary)
    decreases h
  {
    var g := h - 1;
    TakesBound(s, es, g);
    if g > s.primary {
      NeverMoreThanTicks(s, es, g);
    }
  }
}
