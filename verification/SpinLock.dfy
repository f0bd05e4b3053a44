/** The spinlock (`lr.w` / `bne` / `sc.w` / `bne`, and a plain store of zero) used
    again and again by any number of harts, interleaved in any order. */
module SpinLock {
  import opened Machine
  import opened LrSc

  /** Where a hart is: outside, about to load-reserve, about to store-conditional
      (it has loaded zero), or past the lock. */
  datatype Pc = Outside | Load | Store | Inside

  /** There is one location, so a reservation is on the lock word. */
  datatype Lock = Lock(word: int, pc: seq<Pc>, rv: Reservations<()>, holder: Option<nat>) {
    predicate Shape() {
      |pc| == |rv|
    }
  }

  /** `Lose` is a reservation lost for any other reason, as the architecture allows. */
  datatype Event = Enter(h: nat) | LoadReserved(h: nat) | StoreConditional(h: nat) | Leave(h: nat) | Lose(h: nat)

  predicate Enabled(s: Lock, e: Event)
    requires s.Shape()
  {
    e.h < |s.pc| &&
    match e
    case Enter(h) => s.pc[h] == Outside
    case LoadReserved(h) => s.pc[h] == Load
    case StoreConditional(h) => s.pc[h] == Store
    case Leave(h) => s.pc[h] == Inside
    case Lose(h) => true
  }

  function Apply(s: Lock, e: Event): (s': Lock)
    requires s.Shape() && Enabled(s, e)
    ensures s'.Shape() && |s'.pc| == |s.pc|
  {
    match e
    case Enter(h) => s.(pc := s.pc[h := Load])
    case LoadReserved(h) =>
      s.(rv := Reserved(s.rv, h, ()), pc := s.pc[h := if s.word != 0 then Load else Store])
    case StoreConditional(h) =>
      if s.rv[h] == Some(()) then
        s.(word := 1, rv := Dropped(Cancelled(s.rv, h, ()), h), pc := s.pc[h := Inside], holder := Some(h))
      else s.(rv := Dropped(s.rv, h), pc := s.pc[h := Load])
    case Leave(h) =>
      s.(word := 0, rv := Cancelled(s.rv, h, ()), pc := s.pc[h := Outside], holder := None)
    case Lose(h) => s.(rv := Dropped(s.rv, h))
  }

  predicate Possible(s: Lock, es: seq<Event>)
    requires s.Shape()
    decreases |es|
  {
    es == [] || (Enabled(s, es[0]) && Possible(Apply(s, es[0]), es[1..]))
  }

  function After(s: Lock, es: seq<Event>): (s': Lock)
    requires s.Shape() && Possible(s, es)
    ensures s'.Shape() && |s'.pc| == |s.pc|
    decreases |es|
  {
    if es == [] then s else After(Apply(s, es[0]), es[1..])
  }

  predicate Initial(s: Lock) {
    s.Shape() && s.word == 0 && s.holder == None && forall h | 0 <= h < |s.pc| :: s.pc[h] == Outside
  }

  predicate Inv(s: Lock) {
    && s.Shape()
    && s.word == (if s.holder.Some? then 1 else 0)
    && (s.holder.Some? ==> s.holder.value < |s.pc|)
    && (forall h | 0 <= h < |s.pc| :: s.pc[h] == Inside <==> s.holder == Some(h))
    && (forall h | 0 <= h < |s.pc| :: s.pc[h] == Store && s.rv[h] == Some(()) ==> s.word == 0)
  }

  lemma StepKeepsInv(s: Lock, e: Event)
    requires Inv(s) && Enabled(s, e)
    ensures Inv(Apply(s, e))
  {
  }

  lemma {:induction false} RunKeepsInv(s: Lock, es: seq<Event>)
    requires Inv(s) && Possible(s, es)
    ensures Inv(After(s, es))
    decreases |es|
  {
    if es != [] {
      StepKeepsInv(s, es[0]);
      RunKeepsInv(Apply(s, es[0]), es[1..]);
    }
  }

  /** Mutual exclusion over every interleaving of any number of harts: at most one
      is past the lock, the word is 1 exactly when one is, and a reservation that
      is still valid after loading zero means the word is still zero. */
  lemma MutualExclusion(s: Lock, es: seq<Event>)
    requires Initial(s) && Possible(s, es)
    ensures var t := After(s, es);
            && (forall g, h | 0 <= g < |t.pc| && 0 <= h < |t.pc| :: t.pc[g] == Inside && t.pc[h] == Inside ==> g == h)
            && t.word in {0, 1} && (t.word == 1 <==> exists h :: 0 <= h < |t.pc| && t.pc[h] == Inside)
            && (forall h | 0 <= h < |t.pc| :: t.pc[h] == Store && t.rv[h] == Some(()) ==> t.word == 0)
  {
    RunKeepsInv(s, es);
    var t := After(s, es);
    if t.holder.Some? {
      assert t.pc[t.holder.value] == Inside;
    }
  }

  // ---------- progress ----------

  lemma Prepend(s: Lock, e: Event, es: seq<Event>)
    requires s.Shape() && Enabled(s, e) && Possible(Apply(s, e), es)
    ensures Possible(s, [e] + es) && After(s, [e] + es) == After(Apply(s, e), es)
  {
    assert ([e] + es)[1..] == es;
  }

  /** How many steps a waiting hart is from the lock while nobody has it. */
  function Steps(s: Lock, h: nat): nat
    requires h < |s.pc| == |s.rv|
  {
    if s.pc[h] == Load then 2 else if s.rv[h] == Some(()) then 1 else 3
  }

  /** While the word is zero a waiting hart gets the lock by its own next steps: one
      store-conditional if its reservation is still valid, and one more load if not. */
  lemma {:induction false} EntersWhenZero(s: Lock, h: nat) returns (es: seq<Event>)
    requires Inv(s) && s.word == 0 && h < |s.pc| && (s.pc[h] == Load || s.pc[h] == Store)
    ensures Possible(s, es) && |es| == Steps(s, h) && After(s, es).holder == Some(h) && After(s, es).pc[h] == Inside
    ensures forall e | e in es :: e == LoadReserved(h) || e == StoreConditional(h)
    decreases Steps(s, h)
  {
    var e := if s.pc[h] == Load then LoadReserved(h) else StoreConditional(h);
    StepKeepsInv(s, e);
    if s.pc[h] == Store && s.rv[h] == Some(()) {
      es := [];
    } else {
      es := EntersWhenZero(Apply(s, e), h);
    }
    Prepend(s, e, es);
    es := [e] + es;
  }

  /** From every state that any run reaches, a waiting hart can get the lock: at worst
      the hart that has it leaves first. */
  lemma CanEnter(s: Lock, es: seq<Event>, h: nat) returns (more: seq<Event>)
    requires Initial(s) && Possible(s, es) && h < |s.pc|
    requires After(s, es).pc[h] == Load || After(s, es).pc[h] == Store
    ensures Possible(After(s, es), more) && After(After(s, es), more).pc[h] == Inside
  {
    RunKeepsInv(s, es);
    var t := After(s, es);
    if t.holder == None {
      more := EntersWhenZero(t, h);
    } else {
      var e := Leave(t.holder.value);
      StepKeepsInv(t, e);
      more := EntersWhenZero(Apply(t, e), h);
      Prepend(t, e, more);
      more := [e] + more;
    }
  }
}
