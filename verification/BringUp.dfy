/** Bringing up the other harts: every hart that enters `arch_init` walks the hart
    ids from 0, skips its own, and asks the firmware to start each, until a request
    is refused.  The firmware follows section 9.1 of the RISC-V SBI specification
    v2.0: starting a stopped hart succeeds, a started one is refused as already
    available, and an id beyond the last hart is refused as invalid. */
module BringUp {

  /** A hart that has not been started, one that has but is not yet in the loop,
      one at index `i` of the loop, one whose loop has ended. */
  datatype Hart = Stopped | Started | Looping(i: nat) | Done

  /** `starts` logs every successful request, oldest first, as (caller, started);
      `refusals[h]` counts the refused requests of hart `h`. */
  datatype System = System(harts: seq<Hart>, starts: seq<(nat, nat)>, refusals: seq<nat>) {
    predicate Shape() {
      |refusals| == |harts|
    }
  }

  predicate CanStart(s: System, i: nat) {
    i < |s.harts| && s.harts[i] == Stopped
  }

  /** Hart `h` takes its next step: it enters the loop, or performs one turn. */
  predicate Enabled(s: System, h: nat) {
    h < |s.harts| && s.harts[h] != Stopped && s.harts[h] != Done
  }

  function Step(s: System, h: nat): (s': System)
    requires s.Shape() && Enabled(s, h)
    ensures s'.Shape() && |s'.harts| == |s.harts|
  {
    match s.harts[h]
    case Started => s.(harts := s.harts[h := Looping(0)])
    case Looping(i) =>
      if i == h then s.(harts := s.harts[h := Looping(i + 1)])
      else if CanStart(s, i) then
        s.(harts := s.harts[i := Started][h := Looping(i + 1)], starts := s.starts + [(h, i)])
      else s.(harts := s.harts[h := Done], refusals := s.refusals[h := s.refusals[h] + 1])
    case _ => s
  }

  predicate Possible(s: System, es: seq<nat>)
    requires s.Shape()
    decreases |es|
  {
    es == [] || (Enabled(s, es[0]) && Possible(Step(s, es[0]), es[1..]))
  }

  function After(s: System, es: seq<nat>): (s': System)
    requires s.Shape() && Possible(s, es)
    ensures s'.Shape() && |s'.harts| == |s.harts|
    decreases |es|
  {
    if es == [] then s else After(Step(s, es[0]), es[1..])
  }

  /** Of `n` harts, the firmware has started `first`. */
  function Begin(n: nat, first: nat): System
    requires first < n
  {
    System(seq(n, i requires 0 <= i < n => if i == first then Started else Stopped),
           [], seq(n, i requires 0 <= i < n => 0))
  }

  /** No hart can take another step. */
  predicate Quiescent(s: System) {
    forall h | 0 <= h < |s.harts| :: !Enabled(s, h)
  }

  predicate AllUp(s: System) {
    forall h | 0 <= h < |s.harts| :: s.harts[h] != Stopped
  }

  // ---------- every run ends ----------

  /** An upper bound on the steps that hart `h` has left. */
  function Left(n: nat, hart: Hart): nat {
    match hart
    case Stopped => n + 4
    case Started => n + 3
    case Looping(i) => if i <= n + 1 then n + 2 - i else 1
    case Done => 0
  }

  function TotalLeft(n: nat, harts: seq<Hart>): nat {
    if harts == [] then 0 else Left(n, harts[0]) + TotalLeft(n, harts[1..])
  }

  lemma {:induction false} TotalLeftUpdate(n: nat, harts: seq<Hart>, k: nat, x: Hart)
    requires k < |harts|
    ensures TotalLeft(n, harts[k := x]) == TotalLeft(n, harts) - Left(n, harts[k]) + Left(n, x)
  {
    if k == 0 {
      assert harts[0 := x][1..] == harts[1..];
    } else {
      assert harts[k := x][1..] == harts[1..][k - 1 := x];
      TotalLeftUpdate(n, harts[1..], k - 1, x);
    }
  }

  /** Loop indices never run past the first invalid id by more than one. */
  predicate InRange(s: System) {
    forall h | 0 <= h < |s.harts| && s.harts[h].Looping? :: s.harts[h].i <= |s.harts|
  }

  lemma StepStaysInRange(s: System, h: nat)
    requires s.Shape() && InRange(s) && Enabled(s, h)
    ensures InRange(Step(s, h))
  {
  }

  lemma StepDecreases(s: System, h: nat)
    requires s.Shape() && InRange(s) && Enabled(s, h)
    ensures TotalLeft(|s.harts|, Step(s, h).harts) < TotalLeft(|s.harts|, s.harts)
  {
    var n := |s.harts|;
    match s.harts[h]
    case Started => TotalLeftUpdate(n, s.harts, h, Looping(0));
    case Looping(i) =>
      if i == h {
        TotalLeftUpdate(n, s.harts, h, Looping(i + 1));
      } else if CanStart(s, i) {
        TotalLeftUpdate(n, s.harts, i, Started);
        TotalLeftUpdate(n, s.harts[i := Started], h, Looping(i + 1));
      } else {
        TotalLeftUpdate(n, s.harts, h, Done);
      }
  }

  /** No run is longer than the measure of its first state, so bring-up always
      comes to rest. */
  lemma {:induction false} RunsAreBounded(s: System, es: seq<nat>)
    requires s.Shape() && InRange(s) && Possible(s, es)
    ensures |es| + TotalLeft(|s.harts|, After(s, es).harts) <= TotalLeft(|s.harts|, s.harts)
    decreases |es|
  {
    if es != [] {
      StepDecreases(s, es[0]);
      StepStaysInRange(s, es[0]);
      RunsAreBounded(Step(s, es[0]), es[1..]);
    }
  }

  // ---------- when hart 0 or hart 1 boots first ----------

  /** Hart `first` alone starts the others, in order; hart 0, if it is not first,
      gives up at `first`, and everybody else at hart 0. */
  predicate Orderly(s: System, first: nat) {
    && s.Shape() && first < |s.harts| && first <= 1
    && (match s.harts[first]
        case Looping(i) =>
          && i <= |s.harts|
          && (forall h | 0 <= h < |s.harts| && h != first :: s.harts[h] == Stopped <==> h >= i)
          && s.starts == Sequence(first, i)
          && s.refusals[first] == 0
        case Done => AllUp(s) && s.starts == Sequence(first, |s.harts|) && s.refusals[first] == 1
        case Started =>
          && (forall h | 0 <= h < |s.harts| && h != first :: s.harts[h] == Stopped)
          && s.starts == [] && s.refusals[first] == 0
        case Stopped => false)
    && (forall h | 0 <= h < |s.harts| && h != first ::
          && s.refusals[h] == (if s.harts[h] == Done then 1 else 0)
          && (s.harts[h].Looping? ==> s.harts[h].i <= if h == 0 then 1 else 0))
  }

  /** The requests of hart `first` for ids below `i`. */
  function Sequence(first: nat, i: nat): seq<(nat, nat)> {
    if i == 0 then []
    else if i - 1 == first then Sequence(first, i - 1)
    else Sequence(first, i - 1) + [(first, i - 1)]
  }

  lemma StepKeepsOrder(s: System, first: nat, h: nat)
    requires Orderly(s, first) && Enabled(s, h)
    ensures Orderly(Step(s, h), first)
  {
    if h == first {
      FirstKeepsOrder(s, first);
    } else {
      OtherKeepsOrder(s, first, h);
    }
  }

  lemma FirstKeepsOrder(s: System, first: nat)
    requires Orderly(s, first) && Enabled(s, first)
    ensures Orderly(Step(s, first), first)
  {
  }

  lemma OtherKeepsOrder(s: System, first: nat, h: nat)
    requires Orderly(s, first) && Enabled(s, h) && h != first
    ensures Orderly(Step(s, h), first)
  {
  }

  lemma {:induction false} RunKeepsOrder(s: System, first: nat, es: seq<nat>)
    requires Orderly(s, first) && Possible(s, es)
    ensures Orderly(After(s, es), first)
    decreases |es|
  {
    if es != [] {
      StepKeepsOrder(s, first, es[0]);
      RunKeepsOrder(Step(s, es[0]), first, es[1..]);
    }
  }

  /** Hart 0 or hart 1 first: in every interleaving, at rest every hart is up and
      past its loop, the first hart has started each other hart exactly once, in
      id order, nobody else has started any, and each hart made one refused call. */
  lemma OrderlyBringUp(n: nat, first: nat, es: seq<nat>)
    requires first < n && first <= 1 && Possible(Begin(n, first), es)
    ensures Quiescent(After(Begin(n, first), es)) ==>
              var t := After(Begin(n, first), es);
              && (forall h | 0 <= h < n :: t.harts[h] == Done && t.refusals[h] == 1)
              && t.starts == Sequence(first, n)
    ensures var t := After(Begin(n, first), es);
            exists i :: 0 <= i <= n && t.starts == Sequence(first, i)
  {
    RunKeepsOrder(Begin(n, first), first, es);
    var t := After(Begin(n, first), es);
    assert Sequence(first, 0) == [];
    if Quiescent(t) {
      assert !Enabled(t, first);
      forall h | 0 <= h < n
        ensures t.harts[h] == Done
      {
        assert !Enabled(t, h);
      }
    }
  }

  lemma {:induction false} SequenceLists(first: nat, n: nat)
    requires first < n
    ensures |Sequence(first, n)| == n - 1
    ensures forall k | 0 <= k < n - 1 :: Sequence(first, n)[k] == (first, if k < first then k else k + 1)
    decreases n
  {
    if n - 1 == first {
      SequenceBelow(first, n - 1);
    } else {
      SequenceLists(first, n - 1);
    }
  }

  lemma {:induction false} SequenceBelow(first: nat, i: nat)
    requires i <= first
    ensures |Sequence(first, i)| == i && forall k | 0 <= k < i :: Sequence(first, i)[k] == (first, k)
    decreases i
  {
    if i > 0 {
      SequenceBelow(first, i - 1);
    }
  }

  // ---------- when another hart boots first ----------

  /** The harts up are those below `k` and `first`; unless everything below
      `first` is up, `first` or hart 0 is about to start hart `k`. */
  predicate Racing(s: System, first: nat, k: nat) {
    && s.Shape() && 1 < first < |s.harts| && k <= first
    && (forall h | 0 <= h < |s.harts| :: s.harts[h] != Stopped <==> h < k || h == first)
    && (forall h | 0 <= h < |s.harts| && s.harts[h].Looping? :: s.harts[h].i <= k)
    && (k == first || (k == 0 && s.harts[first] == Started)
        || s.harts[first] == Looping(k) || (k > 0 && s.harts[0] == Looping(k)))
    && (forall h | 0 <= h < |s.harts| && h != first && h != 0 && s.harts[h].Looping? :: s.harts[h].i == 0)
  }

  /** When `first` is the last hart, whoever wins the race, everybody is started. */
  lemma StepKeepsRacing(s: System, first: nat, k: nat, h: nat) returns (k': nat)
    requires Racing(s, first, k) && first == |s.harts| - 1 && k < first && Enabled(s, h)
    ensures Racing(Step(s, h), first, k')
  {
    k' := if s.harts[h] == Looping(k) && h != k then k + 1 else k;
  }

  /** Once all harts are up they stay up. */
  lemma {:induction false} AllUpStays(s: System, es: seq<nat>)
    requires s.Shape() && AllUp(s) && Possible(s, es)
    ensures AllUp(After(s, es))
    decreases |es|
  {
    if es != [] {
      AllUpStays(Step(s, es[0]), es[1..]);
    }
  }

  lemma RaceIsOn(s: System, first: nat, k: nat)
    requires Racing(s, first, k) && k < first
    ensures !Quiescent(s)
  {
    assert Enabled(s, first) || Enabled(s, 0);
  }

  lemma {:induction false} RaceEndsUp(s: System, first: nat, k: nat, es: seq<nat>)
    requires Racing(s, first, k) && first == |s.harts| - 1 && Possible(s, es) && Quiescent(After(s, es))
    ensures AllUp(After(s, es))
    decreases |es|
  {
    if k == first {
      AllUpStays(s, es);
    } else if es == [] {
      RaceIsOn(s, first, k);
    } else {
      var k' := StepKeepsRacing(s, first, k, es[0]);
      RaceEndsUp(Step(s, es[0]), first, k', es[1..]);
    }
  }

  /** `first` has given up below its own id, so nobody will start the harts above. */
  predicate Doomed(s: System, first: nat) {
    && s.Shape() && 1 < first < |s.harts| - 1
    && s.harts[first] == Done && s.harts[first + 1] == Stopped && s.harts[0] != Stopped
    && (s.harts[0].Looping? ==> s.harts[0].i <= first)
    && (forall h | 0 < h < |s.harts| && h != first && s.harts[h].Looping? :: s.harts[h].i == 0)
  }

  lemma {:induction false} DoomIsForever(s: System, first: nat, es: seq<nat>)
    requires Doomed(s, first) && Possible(s, es)
    ensures Doomed(After(s, es), first)
    decreases |es|
  {
    if es != [] {
      DoomIsForever(Step(s, es[0]), first, es[1..]);
    }
  }

  /** `first` starts hart 0, which overtakes it at hart 1. */
  function Overtaking(first: nat): seq<nat> {
    [first] + ([first] + ([0] + ([0] + ([0] + ([first] + [])))))
  }

  lemma Prepend(s: System, h: nat, es: seq<nat>)
    requires s.Shape() && Enabled(s, h) && Possible(Step(s, h), es)
    ensures Possible(s, [h] + es) && After(s, [h] + es) == After(Step(s, h), es)
  {
    assert ([h] + es)[1..] == es;
  }

  lemma OvertakingDooms(n: nat, first: nat)
    requires 1 < first < n - 1
    ensures Possible(Begin(n, first), Overtaking(first))
    ensures Doomed(After(Begin(n, first), Overtaking(first)), first)
  {
    var s0 := Begin(n, first);
    var s1 := Step(s0, first);
    var s2 := Step(s1, first);
    var s3 := Step(s2, 0);
    var s4 := Step(s3, 0);
    var s5 := Step(s4, 0);
    assert Doomed(Step(s5, first), first);
    Prepend(s5, first, []);
    Prepend(s4, 0, [first] + []);
    Prepend(s3, 0, [0] + ([first] + []));
    Prepend(s2, 0, [0] + ([0] + ([first] + [])));
    Prepend(s1, first, [0] + ([0] + ([0] + ([first] + []))));
    Prepend(s0, first, [first] + ([0] + ([0] + ([0] + ([first] + [])))));
  }

  // ---------- exactly when bring-up is complete ----------

  /** Every run can be continued to rest. */
  lemma {:induction false} RunToRest(s: System) returns (es: seq<nat>)
    requires s.Shape() && InRange(s)
    ensures Possible(s, es) && Quiescent(After(s, es))
    decreases TotalLeft(|s.harts|, s.harts)
  {
    if Quiescent(s) {
      es := [];
    } else {
      var h :| 0 <= h < |s.harts| && Enabled(s, h);
      StepDecreases(s, h);
      StepStaysInRange(s, h);
      var rest := RunToRest(Step(s, h));
      es := [h] + rest;
      assert es[1..] == rest;
    }
  }

  lemma {:induction false} Concatenate(s: System, a: seq<nat>, b: seq<nat>)
    requires s.Shape() && Possible(s, a) && Possible(After(s, a), b)
    ensures Possible(s, a + b) && After(s, a + b) == After(After(s, a), b)
    decreases |a|
  {
    if a == [] {
      assert [] + b == b;
    } else {
      assert (a + b)[1..] == a[1..] + b;
      Concatenate(Step(s, a[0]), a[1..], b);
    }
  }

  lemma {:induction false} RunStaysInRange(s: System, es: seq<nat>)
    requires s.Shape() && InRange(s) && Possible(s, es)
    ensures InRange(After(s, es))
    decreases |es|
  {
    if es != [] {
      StepStaysInRange(s, es[0]);
      RunStaysInRange(Step(s, es[0]), es[1..]);
    }
  }

  /** In every interleaving every hart is brought up if and only if the hart that
      boots first is hart 0, hart 1 or the last one. */
  lemma CompleteIff(n: nat, first: nat)
    requires first < n
    ensures (forall es :: Possible(Begin(n, first), es) && Quiescent(After(Begin(n, first), es)) ==>
                            AllUp(After(Begin(n, first), es)))
            <==> first <= 1 || first == n - 1
  {
    var s := Begin(n, first);
    if first <= 1 || first == n - 1 {
      forall es | Possible(s, es) && Quiescent(After(s, es))
        ensures AllUp(After(s, es))
      {
        if first <= 1 {
          OrderlyBringUp(n, first, es);
        } else {
          assert Racing(s, first, 0);
          RaceEndsUp(s, first, 0, es);
        }
      }
    } else {
      OvertakingDooms(n, first);
      var prefix := Overtaking(first);
      RunStaysInRange(s, prefix);
      var rest := RunToRest(After(s, prefix));
      Concatenate(s, prefix, rest);
      DoomIsForever(After(s, prefix), first, rest);
      assert After(s, prefix + rest).harts[first + 1] == Stopped;
    }
  }
}
