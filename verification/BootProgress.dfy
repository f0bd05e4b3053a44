/** No hart is stranded: however boot has gone so far, the harts that are switched on
    can all still get through to `arch_init`, by their own steps alone. */
module BootProgress {
  import opened Machine
  import opened Boot

  predicate On(s: System, h: nat) {
    h < |s.pc| && s.pc[h] != Off
  }

  /** Only steps of the program. */
  predicate Steps(es: seq<Event>) {
    forall e | e in es :: e.Next?
  }

  /** The run `es` of program steps leads from `s` to `t`, and switches no hart on or off. */
  ghost predicate Leads(l: Layout, s: System, es: seq<Event>, t: System)
    requires s.Shape(l)
  {
    Steps(es) && Possible(l, s, es) && After(l, s, es) == t && |t.pc| == |s.pc| && forall h :: On(t, h) <==> On(s, h)
  }

  lemma Nowhere(l: Layout, s: System)
    requires s.Shape(l)
    ensures Leads(l, s, [], s)
  {
  }

  lemma Prepend(l: Layout, s: System, e: Event, es: seq<Event>, t: System)
    requires s.Shape(l) && e.Next? && Enabled(l, s, e) && Leads(l, Apply(l, s, e), es, t)
    requires forall h :: On(Apply(l, s, e), h) <==> On(s, h)
    ensures Leads(l, s, [e] + es, t)
  {
    assert ([e] + es)[1..] == es;
  }

  lemma {:induction false} Concatenate(l: Layout, s: System, a: seq<Event>, mid: System, b: seq<Event>, t: System)
    requires s.Shape(l) && Leads(l, s, a, mid) && mid.Shape(l) && Leads(l, mid, b, t)
    ensures Leads(l, s, a + b, t)
  {
    Joined(l, s, a, b);
  }

  lemma {:induction false} Joined(l: Layout, s: System, a: seq<Event>, b: seq<Event>)
    requires s.Shape(l) && Possible(l, s, a) && Possible(l, After(l, s, a), b)
    ensures Possible(l, s, a + b) && After(l, s, a + b) == After(l, After(l, s, a), b)
    decreases |a|
  {
    if a == [] {
      assert [] + b == b;
    } else {
      assert (a + b)[1..] == a[1..] + b;
      Joined(l, Apply(l, s, a[0]), a[1..], b);
    }
  }

  /** A program step moves one hart, and switches none on or off. */
  lemma StepMovesOne(l: Layout, s: System, h: nat)
    requires s.Shape(l) && Enabled(l, s, Next(h))
    ensures forall g | 0 <= g < |s.pc| && g != h :: Apply(l, s, Next(h)).pc[g] == s.pc[g]
    ensures forall g :: On(Apply(l, s, Next(h)), g) <==> On(s, g)
  {
  }

  // ---------- the election ----------

  /** How far hart `h` is from winning an election that nobody has won. */
  function ToWin(s: System, h: nat): nat
    requires h < |s.pc| == |s.rv|
  {
    match s.pc[h]
    case StoreValid => if s.rv[h] == Some(Valid) then 1 else 3
    case LoadValid => 2
    case _ => 0
  }

  lemma {:induction false} Elect(l: Layout, s: System, h: nat) returns (es: seq<Event>, t: System)
    requires Inv(l, s) && s.ready == 0 && s.winner == None && On(s, h)
    ensures Leads(l, s, es, t) && Inv(l, t) && t.ready == 0 && t.winner.Some?
    decreases ToWin(s, h)
  {
    assert s.pc[h] == LoadValid || s.pc[h] == StoreValid;
    var s' := Apply(l, s, Next(h));
    StepKeepsInv(l, s, Next(h));
    StepMovesOne(l, s, h);
    if s'.winner.Some? {
      Nowhere(l, s');
      es, t := [], s';
    } else {
      es, t := Elect(l, s', h);
    }
    Prepend(l, s, Next(h), es, t);
    es := [Next(h)] + es;
  }

  // ---------- clearing the BSS ----------

  function SetupLeft(l: Layout, pc: Pc): nat {
    match pc
    case StorePrimary => l.words + 2
    case Clear(i) => if i <= l.words then l.words - i + 1 else 0
    case RaiseReady => 1
    case _ => 0
  }

  lemma {:induction false} FinishSetup(l: Layout, s: System) returns (es: seq<Event>, t: System)
    requires Inv(l, s) && s.ready == 0 && s.winner.Some?
    ensures Leads(l, s, es, t) && Inv(l, t) && t.ready != 0
    decreases SetupLeft(l, s.pc[s.winner.value])
  {
    var w := s.winner.value;
    var s' := Apply(l, s, Next(w));
    StepKeepsInv(l, s, Next(w));
    StepMovesOne(l, s, w);
    if s'.ready != 0 {
      Nowhere(l, s');
      es, t := [], s';
    } else {
      es, t := FinishSetup(l, s');
    }
    Prepend(l, s, Next(w), es, t);
    es := [Next(w)] + es;
  }

  // ---------- one hart through the lock ----------

  /** How far hart `h` is from `arch_init`, if nobody else has the lock. */
  function ToArch(s: System, h: nat): nat
    requires h < |s.pc| == |s.rv|
  {
    match s.pc[h]
    case StoreValid => 12
    case LoadValid => 11
    case AwaitReady => 10
    case StoreLock => if s.rv[h] == Some(LockWord) then 7 else 9
    case LoadLock => 8
    case ReadDone => 6
    case SetDone => 5
    case UartBegin => 4
    case UartEnd => 3
    case Unlock => 2
    case _ => 0
  }

  predicate LockIsOpenTo(s: System, h: nat) {
    s.holder == None || s.holder == Some(h)
  }

  lemma StepGetsCloser(l: Layout, s: System, h: nat)
    requires Inv(l, s) && s.ready != 0 && On(s, h) && s.pc[h] != Arch && LockIsOpenTo(s, h)
    ensures Enabled(l, s, Next(h))
    ensures var s' := Apply(l, s, Next(h));
            && ToArch(s', h) < ToArch(s, h) && s'.ready != 0 && LockIsOpenTo(s', h)
            && (s'.pc[h] == Arch ==> s'.holder == None)
  {
  }

  lemma {:induction false} PassLock(l: Layout, s: System, h: nat) returns (es: seq<Event>, t: System)
    requires Inv(l, s) && s.ready != 0 && On(s, h) && s.pc[h] != Arch && LockIsOpenTo(s, h)
    ensures Leads(l, s, es, t) && Inv(l, t) && t.ready != 0 && t.pc[h] == Arch && t.holder == None
    ensures forall g | 0 <= g < |s.pc| && g != h :: t.pc[g] == s.pc[g]
    decreases ToArch(s, h)
  {
    StepGetsCloser(l, s, h);
    var s' := Apply(l, s, Next(h));
    StepKeepsInv(l, s, Next(h));
    StepMovesOne(l, s, h);
    if s'.pc[h] == Arch {
      Nowhere(l, s');
      es, t := [], s';
    } else {
      es, t := PassLock(l, s', h);
    }
    Prepend(l, s, Next(h), es, t);
    es := [Next(h)] + es;
  }

  // ---------- all of them ----------

  /** The harts from `k` on pass one after another. */
  lemma {:induction false} PassInTurn(l: Layout, s: System, k: nat) returns (es: seq<Event>, t: System)
    requires Inv(l, s) && s.ready != 0 && s.holder == None && k <= |s.pc|
    requires forall g | 0 <= g < k :: On(s, g) ==> s.pc[g] == Arch
    ensures Leads(l, s, es, t) && forall g | 0 <= g < |s.pc| :: On(s, g) ==> t.pc[g] == Arch
    decreases |s.pc| - k
  {
    if k == |s.pc| {
      Nowhere(l, s);
      es, t := [], s;
    } else if !On(s, k) || s.pc[k] == Arch {
      es, t := PassInTurn(l, s, k + 1);
    } else {
      var a, mid := PassLock(l, s, k);
      var b;
      b, t := PassInTurn(l, mid, k + 1);
      Concatenate(l, s, a, mid, b, t);
      es := a + b;
    }
  }

  /** From the flag on: whoever has the lock leaves first. */
  lemma AfterFlag(l: Layout, s: System) returns (es: seq<Event>, t: System)
    requires Inv(l, s) && s.ready != 0
    ensures Leads(l, s, es, t) && forall g | 0 <= g < |s.pc| :: On(s, g) ==> t.pc[g] == Arch
  {
    if s.holder == None {
      es, t := PassInTurn(l, s, 0);
    } else {
      HolderIsInside(l, s);
      var a, mid := PassLock(l, s, s.holder.value);
      var b;
      b, t := PassInTurn(l, mid, 0);
      Concatenate(l, s, a, mid, b, t);
      es := a + b;
    }
  }

  lemma HolderIsInside(l: Layout, s: System)
    requires Inv(l, s) && s.holder.Some?
    ensures s.holder.value < |s.pc| && InLock(s.pc[s.holder.value])
  {
  }

  lemma FromAnywhere(l: Layout, s: System) returns (es: seq<Event>, t: System)
    requires Inv(l, s)
    ensures Leads(l, s, es, t) && forall g | 0 <= g < |s.pc| :: On(s, g) ==> t.pc[g] == Arch
  {
    if s.ready != 0 {
      es, t := AfterFlag(l, s);
    } else if s.winner.Some? {
      es, t := FromWinner(l, s);
    } else if h :| 0 <= h < |s.pc| && On(s, h) {
      var a, mid := Elect(l, s, h);
      var b;
      b, t := FromWinner(l, mid);
      Concatenate(l, s, a, mid, b, t);
      es := a + b;
    } else {
      Nowhere(l, s);
      es, t := [], s;
    }
  }

  lemma FromWinner(l: Layout, s: System) returns (es: seq<Event>, t: System)
    requires Inv(l, s) && s.ready == 0 && s.winner.Some?
    ensures Leads(l, s, es, t) && forall g | 0 <= g < |s.pc| :: On(s, g) ==> t.pc[g] == Arch
  {
    var a, mid := FinishSetup(l, s);
    var b;
    b, t := AfterFlag(l, mid);
    Concatenate(l, s, a, mid, b, t);
    es := a + b;
  }

  /** From every state that any run reaches, in any interleaving, program steps alone
      can bring every hart that is switched on to `arch_init`. */
  lemma NoHartIsStranded(l: Layout, s: System, es: seq<Event>) returns (more: seq<Event>)
    requires Initial(l, s) && Possible(l, s, es)
    ensures Steps(more) && Possible(l, After(l, s, es), more)
    ensures var (t, t') := (After(l, s, es), After(l, After(l, s, es), more));
            |t'.pc| == |t.pc| && forall h | 0 <= h < |t.pc| :: t'.pc[h] == if On(t, h) then Arch else Off
  {
    RunKeepsInv(l, s, es);
    var t;
    more, t := FromAnywhere(l, After(l, s, es));
    forall h | 0 <= h < |t.pc|
      ensures t.pc[h] == if On(After(l, s, es), h) then Arch else Off
    {
      assert On(t, h) <==> On(After(l, s, es), h);
    }
  }
}
