/** Boot on any number of harts: `_start` elects a primary hart with lr/sc, the
    primary clears the BSS and raises a flag, and every hart then runs `_init`,
    which initialises the UART once under a spinlock that itself lives in the BSS.
    Each shared access of each hart is one step; steps interleave in any order. */
module Boot {
  import opened Machine
  import opened LrSc

  /** The words that lr/sc is used on. */
  datatype Loc = Valid | LockWord

  /** The BSS: its size in words, and where `init_lock` and `init_done` are. */
  datatype Layout = Layout(words: nat, lock: nat, done: nat) {
    predicate Ok() {
      lock < words && done < words && lock != done
    }
  }

  /** The next access of a hart, in program order. */
  datatype Pc =
    | Off
    | LoadValid | StoreValid | StorePrimary | Clear(i: nat) | RaiseReady | AwaitReady
    | LoadLock | StoreLock | ReadDone | SetDone | UartBegin | UartEnd | Unlock
    | Arch

  /** `winner`, `wins`, `holder`, `uartStarts`, `uartEnds` and `touched` are history:
      who won the election and how often it was won, who is past the lock, how
      often `uart_init` began and ended, and the BSS words C code has written. */
  datatype System = System(valid: int, primary: int, ready: int, bss: seq<int>, pc: seq<Pc>, rv: Reservations<Loc>,
                           winner: Option<nat>, wins: nat, holder: Option<nat>,
                           uartStarts: nat, uartEnds: nat, touched: set<nat>) {
    predicate Shape(l: Layout) {
      l.Ok() && |bss| == l.words && |pc| == |rv|
    }
  }

  /** `CWrite` is any other write to the BSS by C code; `Lose` a reservation lost
      for reasons of the hart's own; `PowerOn` the firmware starting a hart. */
  datatype Event = PowerOn(h: nat) | Next(h: nat) | CWrite(h: nat, a: nat, v: int) | Lose(h: nat)

  predicate InSetup(pc: Pc) {
    pc.StorePrimary? || pc.Clear? || pc.RaiseReady?
  }

  /** Past the assembly code. */
  predicate InC(pc: Pc) {
    pc in {LoadLock, StoreLock, ReadDone, SetDone, UartBegin, UartEnd, Unlock, Arch}
  }

  predicate InLock(pc: Pc) {
    pc in {ReadDone, SetDone, UartBegin, UartEnd, Unlock}
  }

  predicate Enabled(l: Layout, s: System, e: Event)
    requires s.Shape(l)
  {
    e.h < |s.pc| &&
    match e
    case PowerOn(h) => s.pc[h] == Off
    case Next(h) => s.pc[h] != Off && s.pc[h] != Arch && (s.pc[h].Clear? ==> s.pc[h].i < l.words)
    case CWrite(h, a, v) => InC(s.pc[h]) && a < l.words && a != l.lock && a != l.done
    case Lose(h) => true
  }

  function Apply(l: Layout, s: System, e: Event): (s': System)
    requires s.Shape(l) && Enabled(l, s, e)
    ensures s'.Shape(l) && |s'.pc| == |s.pc|
  {
    match e
    case PowerOn(h) => s.(pc := s.pc[h := LoadValid])
    case Next(h) => if InC(s.pc[h]) then StepC(l, s, h) else StepAsm(l, s, h)
    case CWrite(h, a, v) => s.(bss := s.bss[a := v], touched := s.touched + {a})
    case Lose(h) => s.(rv := Dropped(s.rv, h))
  }

  /** `_start`. */
  function StepAsm(l: Layout, s: System, h: nat): (s': System)
    requires s.Shape(l) && Enabled(l, s, Next(h)) && !InC(s.pc[h])
    ensures s'.Shape(l) && |s'.pc| == |s.pc|
  {
    match s.pc[h]
    case LoadValid =>
      s.(rv := Reserved(s.rv, h, Valid), pc := s.pc[h := if s.valid != 0 then AwaitReady else StoreValid])
    case StoreValid =>
      if s.rv[h] == Some(Valid) then
        s.(valid := 1, rv := Dropped(Cancelled(s.rv, h, Valid), h), pc := s.pc[h := StorePrimary],
           winner := Some(h), wins := s.wins + 1)
      else s.(rv := Dropped(s.rv, h), pc := s.pc[h := LoadValid])
    case StorePrimary => s.(primary := h, pc := s.pc[h := if l.words == 0 then RaiseReady else Clear(0)])
    case Clear(i) =>
      s.(bss := s.bss[i := 0], rv := if i == l.lock then Cancelled(s.rv, h, LockWord) else s.rv,
         pc := s.pc[h := if i + 1 < l.words then Clear(i + 1) else RaiseReady])
    case RaiseReady => s.(ready := 1, pc := s.pc[h := AwaitReady])
    case AwaitReady => s.(pc := s.pc[h := if s.ready == 0 then AwaitReady else LoadLock])
    case _ => s
  }

  /** `_init` up to the call of `arch_init`. */
  function StepC(l: Layout, s: System, h: nat): (s': System)
    requires s.Shape(l) && Enabled(l, s, Next(h)) && InC(s.pc[h])
    ensures s'.Shape(l) && |s'.pc| == |s.pc|
  {
    match s.pc[h]
    case LoadLock =>
      s.(rv := Reserved(s.rv, h, LockWord), pc := s.pc[h := if s.bss[l.lock] != 0 then LoadLock else StoreLock])
    case StoreLock =>
      if s.rv[h] == Some(LockWord) then
        s.(bss := s.bss[l.lock := 1], rv := Dropped(Cancelled(s.rv, h, LockWord), h), pc := s.pc[h := ReadDone],
           holder := Some(h))
      else s.(rv := Dropped(s.rv, h), pc := s.pc[h := LoadLock])
    case ReadDone => s.(pc := s.pc[h := if s.bss[l.done] == 0 then SetDone else Unlock])
    case SetDone => s.(bss := s.bss[l.done := 1], pc := s.pc[h := UartBegin])
    case UartBegin => s.(uartStarts := s.uartStarts + 1, pc := s.pc[h := UartEnd])
    case UartEnd => s.(uartEnds := s.uartEnds + 1, pc := s.pc[h := Unlock])
    case Unlock =>
      s.(bss := s.bss[l.lock := 0], rv := Cancelled(s.rv, h, LockWord), pc := s.pc[h := Arch], holder := None)
    case _ => s
  }

  /** Reset: the `.data` words are zero, the BSS holds anything, no hart runs yet. */
  predicate Initial(l: Layout, s: System) {
    && s.Shape(l) && s.valid == 0 && s.ready == 0
    && (forall h | 0 <= h < |s.pc| :: s.pc[h] == Off && s.rv[h] == None)
    && s.winner == None && s.wins == 0 && s.holder == None && s.uartStarts == 0 && s.uartEnds == 0 && s.touched == {}
  }

  // ---------- the invariant ----------

  /** The election. */
  predicate Elected(s: System) {
    && (s.valid != 0 <==> s.winner.Some?)
    && s.wins == (if s.winner.Some? then 1 else 0)
    && (s.winner.Some? ==> s.winner.value < |s.pc|)
    && (forall h | 0 <= h < |s.pc| :: InSetup(s.pc[h]) ==> s.winner == Some(h) && s.ready == 0)
    && (forall h | 0 <= h < |s.pc| && h < |s.rv| :: s.pc[h] == StoreValid && s.rv[h] == Some(Valid) ==> s.valid == 0)
    && (s.winner.Some? && s.ready == 0 ==> InSetup(s.pc[s.winner.value]))
    && (forall h | 0 <= h < |s.pc| :: s.pc[h] == AwaitReady ==> s.valid != 0)
    && (s.ready != 0 ==> s.winner.Some?)
    && (s.winner.Some? && s.pc[s.winner.value] != StorePrimary ==> s.primary == s.winner.value)
  }

  /** The BSS before and after the flag. */
  predicate Cleared(l: Layout, s: System)
    requires s.Shape(l)
  {
    && (forall h | 0 <= h < |s.pc| :: InC(s.pc[h]) ==> s.ready != 0)
    && (forall h | 0 <= h < |s.pc| && s.pc[h].Clear? ::
          s.pc[h].i < l.words && forall a | 0 <= a < s.pc[h].i :: s.bss[a] == 0)
    && (forall h | 0 <= h < |s.pc| && s.pc[h] == RaiseReady :: forall a | 0 <= a < l.words :: s.bss[a] == 0)
    && (s.ready == 0 ==> s.touched == {} && s.holder == None && s.uartStarts == 0 && s.uartEnds == 0)
    && (s.ready != 0 ==> forall a | 0 <= a < l.words && a !in s.touched && a != l.lock && a != l.done :: s.bss[a] == 0)
    && l.lock !in s.touched && l.done !in s.touched
  }

  /** The lock. */
  predicate Locked(l: Layout, s: System)
    requires s.Shape(l)
  {
    && (forall h | 0 <= h < |s.pc| :: InLock(s.pc[h]) <==> s.holder == Some(h))
    && (s.holder.Some? ==> s.holder.value < |s.pc|)
    && (s.ready != 0 ==> s.bss[l.lock] == if s.holder.Some? then 1 else 0)
    && (forall h | 0 <= h < |s.pc| :: s.pc[h] == StoreLock && s.rv[h] == Some(LockWord) ==> s.bss[l.lock] == 0)
  }

  /** One-time initialisation. */
  predicate Once(l: Layout, s: System)
    requires s.Shape(l)
  {
    && (s.ready != 0 ==> s.bss[l.done] in {0, 1} && (s.bss[l.done] == 0 ==> s.uartStarts == 0))
    && s.uartStarts <= 1 && s.uartEnds <= s.uartStarts
    && (forall h | 0 <= h < |s.pc| ::
          match s.pc[h]
          case SetDone => s.bss[l.done] == 0
          case UartBegin => s.bss[l.done] == 1 && s.uartStarts == 0
          case UartEnd => s.bss[l.done] == 1 && s.uartStarts == 1 && s.uartEnds == 0
          case Unlock => s.uartEnds == 1
          case Arch => s.uartEnds == 1
          case _ => true)
    && (s.ready != 0 && s.bss[l.done] == 1 ==> s.uartEnds == 1 || Initialising(s))
  }

  /** The hart past the lock is between setting `init_done` and the end of
      `uart_init`. */
  predicate Initialising(s: System) {
    s.holder.Some? && s.holder.value < |s.pc| && s.pc[s.holder.value] in {UartBegin, UartEnd}
  }

  /** The invariant of every reachable state. */
  predicate Inv(l: Layout, s: System) {
    s.Shape(l) && Elected(s) && Cleared(l, s) && Locked(l, s) && Once(l, s)
  }

  lemma AsmKeepsElected(l: Layout, s: System, h: nat)
    requires Inv(l, s) && Enabled(l, s, Next(h)) && !InC(s.pc[h])
    ensures Elected(StepAsm(l, s, h))
  {
  }

  lemma AsmKeepsCleared(l: Layout, s: System, h: nat)
    requires Inv(l, s) && Enabled(l, s, Next(h)) && !InC(s.pc[h])
    ensures Cleared(l, StepAsm(l, s, h))
  {
  }

  lemma ClearingKeepsLock(l: Layout, s: System, h: nat)
    requires Inv(l, s) && Enabled(l, s, Next(h)) && s.pc[h].Clear?
    ensures Locked(l, StepAsm(l, s, h))
  {
  }

  lemma AsmKeepsLock(l: Layout, s: System, h: nat)
    requires Inv(l, s) && Enabled(l, s, Next(h)) && !InC(s.pc[h])
    ensures Locked(l, StepAsm(l, s, h))
  {
    if s.pc[h].Clear? {
      ClearingKeepsLock(l, s, h);
    }
  }

  lemma AsmKeepsOnce(l: Layout, s: System, h: nat)
    requires Inv(l, s) && Enabled(l, s, Next(h)) && !InC(s.pc[h])
    ensures Once(l, StepAsm(l, s, h))
  {
  }

  lemma CKeepsElected(l: Layout, s: System, h: nat)
    requires Inv(l, s) && Enabled(l, s, Next(h)) && InC(s.pc[h])
    ensures Elected(StepC(l, s, h))
  {
  }

  lemma CKeepsCleared(l: Layout, s: System, h: nat)
    requires Inv(l, s) && Enabled(l, s, Next(h)) && InC(s.pc[h])
    ensures Cleared(l, StepC(l, s, h))
  {
  }

  lemma CKeepsLock(l: Layout, s: System, h: nat)
    requires Inv(l, s) && Enabled(l, s, Next(h)) && InC(s.pc[h])
    ensures Locked(l, StepC(l, s, h))
  {
  }

  lemma CKeepsOnce(l: Layout, s: System, h: nat)
    requires Inv(l, s) && Enabled(l, s, Next(h)) && InC(s.pc[h])
    ensures Once(l, StepC(l, s, h))
  {
  }

  lemma StepKeepsInv(l: Layout, s: System, e: Event)
    requires Inv(l, s) && Enabled(l, s, e)
    ensures Inv(l, Apply(l, s, e))
  {
    match e
    case Next(h) =>
      if InC(s.pc[h]) {
        CKeepsElected(l, s, h);
        CKeepsCleared(l, s, h);
        CKeepsLock(l, s, h);
        CKeepsOnce(l, s, h);
      } else {
        AsmKeepsElected(l, s, h);
        AsmKeepsCleared(l, s, h);
        AsmKeepsLock(l, s, h);
        AsmKeepsOnce(l, s, h);
      }
    case CWrite(h, a, v) => CWriteKeepsInv(l, s, h, a, v);
    case PowerOn(h) => PowerOnKeepsInv(l, s, h);
    case Lose(_) =>
  }

  lemma CWriteKeepsInv(l: Layout, s: System, h: nat, a: nat, v: int)
    requires Inv(l, s) && Enabled(l, s, CWrite(h, a, v))
    ensures Inv(l, Apply(l, s, CWrite(h, a, v)))
  {
  }

  lemma PowerOnKeepsInv(l: Layout, s: System, h: nat)
    requires Inv(l, s) && Enabled(l, s, PowerOn(h))
    ensures Inv(l, Apply(l, s, PowerOn(h)))
  {
  }

  // ---------- runs ----------

  predicate Possible(l: Layout, s: System, es: seq<Event>)
    requires s.Shape(l)
    decreases |es|
  {
    es == [] || (Enabled(l, s, es[0]) && Possible(l, Apply(l, s, es[0]), es[1..]))
  }

  function After(l: Layout, s: System, es: seq<Event>): (s': System)
    requires s.Shape(l) && Possible(l, s, es)
    ensures s'.Shape(l)
    decreases |es|
  {
    if es == [] then s else After(l, Apply(l, s, es[0]), es[1..])
  }

  lemma {:induction false} RunKeepsInv(l: Layout, s: System, es: seq<Event>)
    requires Inv(l, s) && Possible(l, s, es)
    ensures Inv(l, After(l, s, es))
    decreases |es|
  {
    if es != [] {
      StepKeepsInv(l, s, es[0]);
      RunKeepsInv(l, Apply(l, s, es[0]), es[1..]);
    }
  }

  /** Boot safety, for any number of harts, any BSS contents and any interleaving:
      the election is won at most once; when any hart is in C code it has been won
      exactly once, `primary_hart` names the winner, and every BSS word that C code
      has not written is zero; at most one hart is past `init_lock`; `uart_init`
      begins at most once, and has ended when any hart is in `arch_init`. */
  lemma BootIsSafe(l: Layout, s: System, es: seq<Event>)
    requires Initial(l, s) && Possible(l, s, es)
    ensures var t := After(l, s, es);
            && t.wins <= 1 && t.uartStarts <= 1
            && (forall h | 0 <= h < |t.pc| && InC(t.pc[h]) ::
                  && t.wins == 1 && t.winner == Some(t.primary)
                  && forall a | 0 <= a < l.words && a !in t.touched && a != l.lock && a != l.done :: t.bss[a] == 0)
            && (forall g, h | 0 <= g < |t.pc| && 0 <= h < |t.pc| :: InLock(t.pc[g]) && InLock(t.pc[h]) ==> g == h)
            && (forall h | 0 <= h < |t.pc| && t.pc[h] == Arch :: t.uartStarts == 1 && t.uartEnds == 1)
  {
    RunKeepsInv(l, s, es);
  }

  /** The step on which the first hart enters C code finds the whole BSS zero,
      including the words of the lock and of `init_done`. */
  lemma FirstEntryFindsZero(l: Layout, s: System, es: seq<Event>, h: nat)
    requires Initial(l, s) && Possible(l, s, es)
    requires var t := After(l, s, es);
             && Enabled(l, t, Next(h)) && !InC(t.pc[h]) && InC(Apply(l, t, Next(h)).pc[h])
             && forall g | 0 <= g < |t.pc| :: !InC(t.pc[g])
    ensures forall a | 0 <= a < l.words :: Apply(l, After(l, s, es), Next(h)).bss[a] == 0
  {
    RunKeepsInv(l, s, es);
    RunKeepsFresh(l, s, es);
    EntryFindsZero(l, After(l, s, es), h);
  }

  lemma EntryFindsZero(l: Layout, s: System, h: nat)
    requires Inv(l, s) && Fresh(l, s) && Enabled(l, s, Next(h))
    requires !InC(s.pc[h]) && InC(Apply(l, s, Next(h)).pc[h]) && forall g | 0 <= g < |s.pc| :: !InC(s.pc[g])
    ensures forall a | 0 <= a < l.words :: Apply(l, s, Next(h)).bss[a] == 0
  {
    assert s.pc[h] == AwaitReady;
  }

  /** Until some hart enters C code the BSS is only ever cleared. */
  predicate Fresh(l: Layout, s: System)
    requires s.Shape(l)
  {
    (forall g | 0 <= g < |s.pc| :: !InC(s.pc[g])) && s.ready != 0 ==> forall a | 0 <= a < l.words :: s.bss[a] == 0
  }

  lemma {:induction false} RunKeepsFresh(l: Layout, s: System, es: seq<Event>)
    requires Inv(l, s) && Fresh(l, s) && Possible(l, s, es)
    ensures Fresh(l, After(l, s, es))
    decreases |es|
  {
    if es != [] {
      StepKeepsInv(l, s, es[0]);
      StepKeepsFresh(l, s, es[0]);
      RunKeepsFresh(l, Apply(l, s, es[0]), es[1..]);
    }
  }

  lemma StepKeepsFresh(l: Layout, s: System, e: Event)
    requires Inv(l, s) && Fresh(l, s) && Enabled(l, s, e)
    ensures Fresh(l, Apply(l, s, e))
  {
    var s' := Apply(l, s, e);
    if g :| 0 <= g < |s.pc| && InC(s.pc[g]) {
      assert InC(s'.pc[g]);
    }
  }
}
