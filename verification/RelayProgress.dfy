/** However `main` and the handlers have gone so far, every hart can still come up,
    and one more timer tick can still make its way to the last hart. */
module RelayProgress {
  import opened Relay

  ghost predicate Leads(s: System, es: seq<Event>, t: System)
    requires s.Shape()
  {
    Possible(s, es) && After(s, es) == t
  }

  lemma Prepend(s: System, e: Event, es: seq<Event>, t: System)
    requires s.Shape() && Enabled(s, e) && Leads(Apply(s, e), es, t)
    ensures Leads(s, [e] + es, t)
  {
    assert ([e] + es)[1..] == es;
  }

  lemma {:induction false} Concatenate(s: System, a: seq<Event>, mid: System, b: seq<Event>, t: System)
    requires s.Shape() && Leads(s, a, mid) && mid.Shape() && Leads(mid, b, t)
    ensures Leads(s, a + b, t)
    decreases |a|
  {
    if a == [] {
      assert [] + b == b;
    } else {
      assert (a + b)[1..] == a[1..] + b;
      Concatenate(Apply(s, a[0]), a[1..], mid, b, t);
    }
  }

  lemma StepKeepsInv(s: System, e: Event)
    requires Inv(s) && Enabled(s, e)
    ensures Inv(Apply(s, e))
  {
    StepKeepsHandshake(s, e);
    StepKeepsRelay(s, e);
  }

  // ---------- a handler runs to its end ----------

  /** Nothing but interrupts has happened, none of them to `main`, and no tick. */
  predicate MainSame(s: System, t: System) {
    && t.primary == s.primary && t.pc == s.pc && t.done == s.done && t.timer == s.timer && t.ipi == s.ipi
    && t.timerOn == s.timerOn && t.ipiOn == s.ipiOn && t.ticks == s.ticks
  }

  /** Only hart `g`'s handler has moved on, and nobody has taken an IPI. */
  predicate OnlyHandler(s: System, t: System, g: nat)
    requires s.Shape()
  {
    && t.Shape() && MainSame(s, t) && t.handled == s.handled
    && forall h | 0 <= h < |s.pc| && h != g :: t.trap[h] == s.trap[h]
  }

  lemma HandlerMoves(s: System, g: nat)
    requires s.Shape() && Enabled(s, Handler(g))
    ensures OnlyHandler(s, Apply(s, Handler(g)), g)
    ensures Apply(s, Handler(g)).trap[g] == if s.trap[g] == IpiSend then IpiClear else Idle
  {
  }

  lemma {:induction false} Settle(s: System, g: nat) returns (es: seq<Event>, t: System)
    requires Inv(s) && g < |s.pc|
    ensures Leads(s, es, t) && Inv(t) && OnlyHandler(s, t, g) && t.trap[g] == Idle
    decreases if s.trap[g] == IpiSend then 2 else if s.trap[g] == Idle then 0 else 1
  {
    if s.trap[g] == Idle {
      es, t := [], s;
    } else {
      HandlerMoves(s, g);
      StepKeepsInv(s, Handler(g));
      es, t := Settle(Apply(s, Handler(g)), g);
      Prepend(s, Handler(g), es, t);
      es := [Handler(g)] + es;
    }
  }

  // ---------- main runs to its end ----------

  function MainLeft(pc: Pc): nat {
    match pc
    case Start => 8 case SetUart => 7 case SetTimer => 6 case SetIpi => 5 case EnableTimer => 4
    case RaiseDone => 3 case EnableIpi => 2 case AwaitDone => 1 case Up => 0
  }

  /** `main` of hart `h` alone has moved on. */
  predicate OnlyMain(s: System, t: System, h: nat)
    requires s.Shape()
  {
    && t.Shape() && |t.pc| == |s.pc| && t.primary == s.primary
    && forall g | 0 <= g < |s.pc| && g != h :: t.pc[g] == s.pc[g]
  }

  /** The primary can always go on in `main`; another hart, once the flag is up. */
  lemma MainMoves(s: System, h: nat)
    requires Inv(s) && h < |s.pc| && (h == s.primary || s.done) && s.pc[h] != Up && s.trap[h] == Idle
    ensures Enabled(s, Main(h))
    ensures var t := Apply(s, Main(h));
            OnlyMain(s, t, h) && MainLeft(t.pc[h]) < MainLeft(s.pc[h]) && t.trap == s.trap && (s.done ==> t.done)
  {
  }

  lemma {:induction false} ComeUp(s: System, h: nat) returns (es: seq<Event>, t: System)
    requires Inv(s) && h < |s.pc| && (h == s.primary || s.done)
    ensures Leads(s, es, t) && Inv(t) && OnlyMain(s, t, h) && t.pc[h] == Up
    decreases MainLeft(s.pc[h])
  {
    if s.pc[h] == Up {
      es, t := [], s;
    } else {
      var a, mid := Settle(s, h);
      MainMoves(mid, h);
      StepKeepsInv(mid, Main(h));
      var b;
      b, t := ComeUp(Apply(mid, Main(h)), h);
      Prepend(mid, Main(h), b, t);
      Concatenate(s, a, mid, [Main(h)] + b, t);
      es := a + ([Main(h)] + b);
    }
  }

  lemma {:induction false} ComeUpInTurn(s: System, k: nat) returns (es: seq<Event>, t: System)
    requires Inv(s) && s.done && k <= |s.pc| && forall h | 0 <= h < k :: s.pc[h] == Up
    ensures Leads(s, es, t) && Inv(t) && |t.pc| == |s.pc| && forall h | 0 <= h < |s.pc| :: t.pc[h] == Up
    decreases |s.pc| - k
  {
    if k == |s.pc| {
      es, t := [], s;
    } else {
      var a, mid := ComeUp(s, k);
      assert mid.pc[k] == Up;
      var b;
      b, t := ComeUpInTurn(mid, k + 1);
      Concatenate(s, a, mid, b, t);
      es := a + b;
    }
  }

  lemma AllComeUp(s: System) returns (es: seq<Event>, t: System)
    requires Inv(s)
    ensures Leads(s, es, t) && Inv(t) && |t.pc| == |s.pc| && t.primary == s.primary
    ensures forall h | 0 <= h < |s.pc| :: t.pc[h] == Up
  {
    var a, mid := ComeUp(s, s.primary);
    assert mid.pc[mid.primary] == Up;
    var b;
    b, t := ComeUpInTurn(mid, 0);
    Concatenate(s, a, mid, b, t);
    es := a + b;
    AfterSame(s, es);
  }

  lemma AfterSame(s: System, es: seq<Event>)
    requires s.Shape() && Possible(s, es)
    ensures After(s, es).primary == s.primary
  {
  }

  /** From every state that any run reaches, in any interleaving, all harts can still
      get past the wait. */
  lemma EveryHartCanComeUp(s: System, es: seq<Event>) returns (more: seq<Event>)
    requires Initial(s) && Possible(s, es)
    ensures Possible(After(s, es), more)
    ensures forall h | 0 <= h < |s.pc| :: After(After(s, es), more).pc[h] == Up
  {
    StartsFine(s);
    RunKeepsInv(s, es);
    var t;
    more, t := AllComeUp(After(s, es));
  }

  // ---------- a tick on its way ----------

  /** All harts are past the wait, so every interrupt is enabled and has its handler. */
  predicate Running(s: System) {
    Inv(s) && forall h | 0 <= h < |s.pc| :: s.pc[h] == Up
  }

  lemma RunningTakes(s: System, h: nat)
    requires Running(s) && h < |s.pc|
    ensures s.timer && s.ipi && s.ipiOn[h] && s.timerOn[s.primary]
  {
  }

  lemma TakeMoves(s: System, h: nat)
    requires Running(s) && Enabled(s, TakeIpi(h))
    ensures var t := Apply(s, TakeIpi(h));
            && t.Shape() && MainSame(s, t) && t.trap == s.trap[h := IpiSend] && t.pending == s.pending
            && t.handled == s.handled[h := s.handled[h] + 1]
  {
    RunningTakes(s, h);
  }

  lemma SendMoves(s: System, h: nat)
    requires s.Shape() && h + 1 < |s.pc| && (s.trap[h] == IpiSend || s.trap[h] == TimerSend)
    ensures var t := Apply(s, Handler(h));
            && OnlyHandler(s, t, h) && t.pending[h + 1] && t.trap[h + 1] == s.trap[h + 1]
  {
  }

  /** One hart passes an IPI on: it waits until the next hart is free, and sends. */
  lemma Forward(s: System, h: nat) returns (es: seq<Event>, t: System)
    requires Running(s) && h + 1 < |s.pc| && (s.trap[h] == IpiSend || s.trap[h] == TimerSend)
    ensures Leads(s, es, t) && Running(t) && MainSame(s, t) && t.handled == s.handled
    ensures t.pending[h + 1] && t.trap[h + 1] == Idle
  {
    var a, mid := Settle(s, h + 1);
    SendMoves(mid, h);
    StepKeepsInv(mid, Handler(h));
    t := Apply(mid, Handler(h));
    Prepend(mid, Handler(h), [], t);
    Concatenate(s, a, mid, [Handler(h)] + [], t);
    es := a + ([Handler(h)] + []);
  }

  /** An IPI waiting at hart `h` makes its way to the last hart without another tick. */
  lemma {:induction false} Travel(s: System, h: nat) returns (es: seq<Event>, t: System)
    requires Running(s) && h < |s.pc| && s.pending[h] && s.trap[h] == Idle
    ensures Leads(s, es, t) && Inv(t) && MainSame(s, t)
    ensures t.handled[|s.pc| - 1] == s.handled[|s.pc| - 1] + 1
    decreases |s.pc| - h
  {
    RunningTakes(s, h);
    TakeMoves(s, h);
    StepKeepsInv(s, TakeIpi(h));
    var s' := Apply(s, TakeIpi(h));
    if h == |s.pc| - 1 {
      es, t := [], s';
    } else {
      var a, mid := Forward(s', h);
      var b;
      b, t := Travel(mid, h + 1);
      Concatenate(s', a, mid, b, t);
      es := a + b;
    }
    Prepend(s, TakeIpi(h), es, t);
    es := [TakeIpi(h)] + es;
  }

  lemma TickMoves(s: System)
    requires Running(s) && s.trap[s.primary] == Idle
    ensures Enabled(s, Tick(s.primary))
    ensures var t := Apply(s, Tick(s.primary));
            && Running(t) && t.trap[s.primary] == TimerSend && t.handled == s.handled
            && t.ticks == s.ticks[s.primary := s.ticks[s.primary] + 1]
  {
    RunningTakes(s, s.primary);
    StepKeepsInv(s, Tick(s.primary));
  }

  lemma TickTravels(s: System) returns (es: seq<Event>, t: System)
    requires Running(s) && s.primary + 1 < |s.pc|
    ensures Leads(s, es, t) && t.Shape() && |t.pc| == |s.pc|
    ensures t.ticks[s.primary] == s.ticks[s.primary] + 1
    ensures t.handled[|s.pc| - 1] == s.handled[|s.pc| - 1] + 1
  {
    var p := s.primary;
    var a, s1 := Settle(s, p);
    TickMoves(s1);
    var s2 := Apply(s1, Tick(p));
    var b, s3 := Forward(s2, p);
    var c;
    c, t := Travel(s3, p + 1);
    Concatenate(s2, b, s3, c, t);
    Prepend(s1, Tick(p), b + c, t);
    Concatenate(s, a, s1, [Tick(p)] + (b + c), t);
    es := a + ([Tick(p)] + (b + c));
  }

  /** From every state that any run reaches, once all harts have come up, a run with
      just one more tick makes the last hart take one more IPI. */
  lemma TickCanReachLast(s: System, es: seq<Event>) returns (up: seq<Event>, more: seq<Event>)
    requires Initial(s) && Possible(s, es) && s.primary + 1 < |s.pc|
    ensures Possible(After(s, es), up)
    ensures var t := After(After(s, es), up);
            && (forall h | 0 <= h < |s.pc| :: t.pc[h] == Up)
            && Possible(t, more) && TicksOf(t, more, s.primary) == 1 && TakesOf(t, more, |s.pc| - 1) == 1
  {
    StartsFine(s);
    RunKeepsInv(s, es);
    var t, u;
    up, t := AllComeUp(After(s, es));
    more, u := TickTravels(t);
    OneMore(t, more, u);
  }

  lemma OneMore(s: System, es: seq<Event>, t: System)
    requires s.Shape() && Leads(s, es, t) && t.ticks[s.primary] == s.ticks[s.primary] + 1
    requires t.handled[|s.pc| - 1] == s.handled[|s.pc| - 1] + 1
    ensures TicksOf(s, es, s.primary) == 1 && TakesOf(s, es, |s.pc| - 1) == 1
  {
    HistoriesAreTrue(s, es, s.primary);
    HistoriesAreTrue(s, es, |s.pc| - 1);
  }
}
