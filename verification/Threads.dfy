/**
 Which thread carries an attempt: the lifecycle half of `TaskAttempt` in
 `agent_sys/agent/runner.py`.  `begin`, `carry_on`, `wake` and `halt` may come from
 any thread at any moment; a thread of the attempt moves one step at a time.

 `threading.Event` is modelled as it works: `set` lets go every thread waiting at
 that moment, even if the flag is cleared before the thread runs again.
 */
module ThreadOwnership {

  /** Where a thread of `run` stands.  `inner` is the wait inside `_main`'s own loop. */
  datatype Pc =
    | Loop                  // at `while not self._halted` of `run`
    | InnerLoop             // at `while not self._halted` of `_main`
    | Phase                 // inside `_one_phase`
    | Park(inner: bool)     // about to call `_wake.wait()`
    | Waiting(inner: bool)  // blocked in it
    | Woken(inner: bool)    // about to `_wake.clear()`
    | Cleared(inner: bool)  // about to read `_halted`
    | Releasing             // `release` has set `_halted`, not yet `_wake`
    | Leaving               // on the way out: `return`, `_crash`, the `finally`
    | Ended

  /** `threads` in creation order, so `_thread` is the last; `final` records that `halt` was called. */
  datatype Attempt = Attempt(threads: seq<Pc>, halted: bool, wake: bool, final: bool)

  const FRESH := Attempt([], false, false, false)

  /** What the phase a thread is in comes to. */
  datatype Outcome = Advances | Ends | Raises | Retries | Releases

  datatype Event =
    | Begin
    | CarryOn
    | Wake
    | Halt
    | Move(i: nat, o: Outcome)

  /** Can this thread still run another phase? */
  predicate Capable(pc: Pc) { !pc.Releasing? && !pc.Leaving? && !pc.Ended? }

  /** `is_running` */
  predicate Running(a: Attempt)
  {
    a.threads != [] && !a.threads[|a.threads| - 1].Ended? && !a.halted
  }

  /** `Event.set` */
  function SetWake(a: Attempt): (b: Attempt)
    ensures |b.threads| == |a.threads|
    ensures forall i | 0 <= i < |a.threads| :: Capable(b.threads[i]) == Capable(a.threads[i])
  {
    a.(wake := true,
       threads := seq(|a.threads|, i requires 0 <= i < |a.threads| =>
                                     if a.threads[i].Waiting? then Woken(a.threads[i].inner) else a.threads[i]))
  }

  /** `begin`, which raises `ThreadAlreadyHeld` and changes nothing while one is running. */
  function DoBegin(a: Attempt): (b: Attempt)
  {
    if Running(a) then a else a.(threads := a.threads + [Loop], halted := false, wake := false)
  }

  function Next(a: Attempt, pc: Pc, o: Outcome): (pc': Pc)
  {
    match pc
    case Loop => if a.halted then Leaving else Phase
    case InnerLoop => if a.halted then Leaving else Phase
    case Phase =>
      (match o
       case Advances => Park(false)
       case Ends => Leaving
       case Raises => Leaving
       case Retries => Park(true)
       case Releases => Releasing)
    case Park(b) => if a.wake then Woken(b) else Waiting(b)
    case Waiting(b) => Waiting(b)
    case Woken(b) => Cleared(b)
    case Cleared(b) => if a.halted then Leaving else if b then InnerLoop else Loop
    case Releasing => Leaving
    case Leaving => Ended
    case Ended => Ended
  }

  function DoMove(a: Attempt, i: nat, o: Outcome): (b: Attempt)
    requires i < |a.threads|
  {
    var pc := a.threads[i];
    var moved := a.(threads := a.threads[i := Next(a, pc, o)]);
    match pc
    case Phase => if o.Releases? then moved.(halted := true) else moved
    case Woken(_) => moved.(wake := false)
    case Releasing => SetWake(moved)
    case _ => moved
  }

  function Step(a: Attempt, e: Event): (b: Attempt)
    ensures |a.threads| <= |b.threads|
  {
    match e
    case Begin => DoBegin(a)
    case CarryOn => if Running(a) then SetWake(a) else a  // the `begin` it then calls is a step of its own
    case Wake => SetWake(a)
    case Halt => a.(halted := true, final := true)
    case Move(i, o) => if i < |a.threads| then DoMove(a, i, o) else a
  }

  function Run(a: Attempt, es: seq<Event>): (b: Attempt)
    decreases |es|
  {
    if es == [] then a else Run(Step(a, es[0]), es[1..])
  }

  /** The callers' rule: `Runner.stop` drops the attempt, so nothing begins it after `halt`. */
  predicate HaltIsFinal(es: seq<Event>)
  {
    forall i, j | 0 <= i < j < |es| :: es[i].Halt? ==> !es[j].Begin?
  }

  predicate AtMostOneCapable(a: Attempt)
  {
    forall i, j | 0 <= i < j < |a.threads| :: !(Capable(a.threads[i]) && Capable(a.threads[j]))
  }

  predicate Inv(a: Attempt)
  {
    && (forall i | 0 <= i < |a.threads| - 1 :: !Capable(a.threads[i]))
    && (a.threads != [] && a.halted && !a.final ==> !Capable(a.threads[|a.threads| - 1]))
    && (a.threads != [] && a.threads[|a.threads| - 1].Releasing? ==> a.halted)
    && (a.final ==> a.halted)
  }

  lemma StepKeepsInv(a: Attempt, e: Event)
    requires Inv(a) && (a.final ==> !e.Begin?)
    ensures Inv(Step(a, e))
    ensures Step(a, e).final == (a.final || e.Halt?)
  {
    if e.Begin? && !Running(a) {
      var b := DoBegin(a);
      forall i | 0 <= i < |b.threads| - 1 ensures !Capable(b.threads[i]) {}
    }
  }

  lemma {:induction false} RunKeepsInv(a: Attempt, es: seq<Event>)
    requires Inv(a) && HaltIsFinal(es) && (a.final ==> forall e | e in es :: !e.Begin?)
    ensures Inv(Run(a, es))
    decreases |es|
  {
    if es != [] {
      assert es[0] in es;
      StepKeepsInv(a, es[0]);
      var rest := es[1..];
      forall e | e in rest && (a.final || es[0].Halt?) ensures !e.Begin? {
        var j :| 0 <= j < |rest| && rest[j] == e;
        assert es[j + 1] == e;
        assert e in es;
      }
      forall i, j | 0 <= i < j < |rest| ensures rest[i].Halt? ==> !rest[j].Begin? {
        assert es[i + 1] == rest[i] && es[j + 1] == rest[j];
      }
      RunKeepsInv(Step(a, es[0]), rest);
    }
  }

  /** Across every interleaving in which `halt` is final, at most one thread of an attempt
      can still run another phase, and while one can, `begin` raises. */
  lemma OneThreadPerAttempt(es: seq<Event>)
    requires HaltIsFinal(es)
    ensures var a := Run(FRESH, es);
      && AtMostOneCapable(a)
      && (!a.final && (exists i :: 0 <= i < |a.threads| && Capable(a.threads[i])) ==> Running(a) && DoBegin(a) == a)
  {
    RunKeepsInv(FRESH, es);
  }

  /** A thread on its way out never re-enters a loop, in any run at all: not when `begin`
      clears `_halted` behind it, not when it is woken. */
  lemma {:induction false} NeverReenters(a: Attempt, es: seq<Event>, i: nat)
    requires i < |a.threads| && !Capable(a.threads[i])
    ensures i < |Run(a, es).threads| && !Capable(Run(a, es).threads[i])
    decreases |es|
  {
    if es != [] { NeverReenters(Step(a, es[0]), es[1..], i); }
  }

  /** `begin` gives an attempt a second capable thread exactly when a halted one has not yet noticed. */
  lemma BeginIsSafeExactly(a: Attempt)
    requires forall i | 0 <= i < |a.threads| - 1 :: !Capable(a.threads[i])
    ensures AtMostOneCapable(DoBegin(a)) <==>
      !(a.halted && a.threads != [] && Capable(a.threads[|a.threads| - 1]))
  {
    var b := DoBegin(a);
    if a.halted && a.threads != [] && Capable(a.threads[|a.threads| - 1]) {
      assert b.threads[|a.threads| - 1] == a.threads[|a.threads| - 1] && b.threads[|a.threads|] == Loop;
    }
  }

  lemma {:induction false} RunThen(a: Attempt, es: seq<Event>, e: Event)
    ensures Run(a, es + [e]) == Step(Run(a, es), e)
    decreases |es|
  {
    if es == [] { assert Run(Step(a, e), []) == Step(a, e); }
    else {
      RunThen(Step(a, es[0]), es[1..], e);
      assert (es + [e])[1..] == es[1..] + [e];
    }
  }

  lemma Then(es: seq<Event>, e: Event) returns (more: seq<Event>)
    ensures more == es + [e] && Run(FRESH, more) == Step(Run(FRESH, es), e)
  {
    RunThen(FRESH, es, e);
    more := es + [e];
  }

  lemma OneParked() returns (es: seq<Event>)
    ensures es == [Begin, Move(0, Advances), Move(0, Advances), Move(0, Advances)]
    ensures Run(FRESH, es) == Attempt([Waiting(false)], false, false, false)
  {
    es := Then([], Begin);
    es := Then(es, Move(0, Advances));
    es := Then(es, Move(0, Advances));
    es := Then(es, Move(0, Advances));
  }

  lemma HaltedAndBegun() returns (es: seq<Event>)
    ensures |es| == 7 && es[4].Halt? && es[5].Begin?
    ensures Run(FRESH, es).threads == [Woken(false), Loop] && !Run(FRESH, es).halted
  {
    es := OneParked();
    es := Then(es, Halt);
    es := Then(es, Begin);
    assert Run(FRESH, es).threads == [Waiting(false), Loop];
    es := Then(es, Wake);
  }

  /** The rule is needed: if a parked attempt is halted and begun again before its thread
      wakes, both threads end up inside a phase. */
  lemma BeginAfterHaltRunsTwo() returns (es: seq<Event>)
    ensures Run(FRESH, es).threads == [Phase, Phase]
    ensures !HaltIsFinal(es)
  {
    es := HaltedAndBegun();
    es := Then(es, Move(0, Advances));
    es := Then(es, Move(0, Advances));
    assert Run(FRESH, es).threads == [Loop, Loop];
    es := Then(es, Move(0, Advances));
    es := Then(es, Move(1, Advances));
    assert es[4].Halt? && es[5].Begin?;
  }

  // ---- what becomes of a wake ----

  function Newest(a: Attempt): (pc: Pc)
    requires a.threads != []
  {
    a.threads[|a.threads| - 1]
  }

  /** The newest thread goes on to its next phase unless a `halt` comes first. */
  predicate Heeds(a: Attempt)
  {
    && a.threads != [] && !a.halted
    && var pc := Newest(a); pc.Loop? || pc.InnerLoop? || pc.Woken? || pc.Cleared? || (pc.Park? && a.wake)
  }

  /** It is inside a phase, and the wake is kept for it. */
  predicate Busy(a: Attempt) { a.threads != [] && !a.halted && Newest(a).Phase? && a.wake }

  /** How many of its own moves a heeding thread is away from its next phase. */
  function Away(pc: Pc): (n: nat)
  {
    if pc.Loop? || pc.InnerLoop? then 1 else if pc.Cleared? then 2 else if pc.Woken? then 3 else 4
  }

  /** `e` takes thread `i` into a phase. */
  predicate Enters(a: Attempt, e: Event, i: nat)
  {
    i < |a.threads| && !a.threads[i].Phase? && Step(a, e).threads[i].Phase?
  }

  /** `carry_on` on a running attempt finds the newest thread on its way out, or heeding once
      woken, or inside a phase, which then keeps the wake. */
  lemma WokenIs(a: Attempt)
    requires Inv(a) && Running(a)
    ensures var b := Step(a, CarryOn);
      && |b.threads| == |a.threads| && (Newest(b).Leaving? <==> Newest(a).Leaving?)
      && (Busy(b) <==> Newest(a).Phase?)
      && (Newest(b).Leaving? || Heeds(b) || Busy(b))
  {
  }

  /** Whatever comes, short of a `halt`, a heeding thread goes on heeding or enters a phase, and
      its own moves bring it nearer. */
  lemma HeedsOn(a: Attempt, e: Event)
    requires Inv(a) && Heeds(a) && !e.Halt? && !Enters(a, e, |a.threads| - 1)
    ensures var b := Step(a, e);
      && Inv(b) && Heeds(b) && |b.threads| == |a.threads|
      && Away(Newest(b)) <= Away(Newest(a)) - if e.Move? && e.i == |a.threads| - 1 then 1 else 0
  {
    StepKeepsInv(a, e);
  }

  /** Nothing but its own move or a `halt` changes that a thread is busy. */
  lemma BusyOn(a: Attempt, e: Event)
    requires Inv(a) && Busy(a) && !e.Halt? && !(e.Move? && e.i == |a.threads| - 1)
    ensures var b := Step(a, e); Inv(b) && Busy(b) && |b.threads| == |a.threads|
  {
    StepKeepsInv(a, e);
  }

  /** The phase goes on to another one, this or the next. */
  predicate GoesOn(o: Outcome) { o.Advances? || o.Retries? }

  /** Its own move takes a busy thread to the wake it was given exactly when the phase goes on;
      otherwise it can run no phase any more. */
  lemma BusyMoves(a: Attempt, o: Outcome)
    requires Inv(a) && Busy(a)
    ensures var b := Step(a, Move(|a.threads| - 1, o));
      Inv(b) && |b.threads| == |a.threads| && (Heeds(b) <==> GoesOn(o)) && (!GoesOn(o) ==> !Capable(Newest(b)))
  {
    StepKeepsInv(a, Move(|a.threads| - 1, o));
  }

  /** Thread `i` enters a phase somewhere in the run. */
  predicate Acts(a: Attempt, i: nat, es: seq<Event>)
    decreases |es|
  {
    es != [] && (Enters(a, es[0], i) || Acts(Step(a, es[0]), i, es[1..]))
  }

  function OwnMoves(es: seq<Event>, i: nat): (n: nat)
  {
    if es == [] then 0 else (if es[0].Move? && es[0].i == i then 1 else 0) + OwnMoves(es[1..], i)
  }

  /** How the phase a thread is in comes out: the outcome of its first move. */
  function FirstOutcome(es: seq<Event>, i: nat): (o: Outcome)
    requires OwnMoves(es, i) > 0
  {
    if es[0].Move? && es[0].i == i then es[0].o else FirstOutcome(es[1..], i)
  }

  predicate NoHalt(es: seq<Event>) { forall e | e in es :: !e.Halt? }

  lemma {:induction false} HeedingActs(a: Attempt, es: seq<Event>)
    requires Inv(a) && Heeds(a) && NoHalt(es) && OwnMoves(es, |a.threads| - 1) >= Away(Newest(a))
    ensures Acts(a, |a.threads| - 1, es)
    decreases |es|
  {
    assert es[0] in es;
    if !Enters(a, es[0], |a.threads| - 1) {
      HeedsOn(a, es[0]);
      HeedingActs(Step(a, es[0]), es[1..]);
    }
  }

  lemma {:induction false} IncapableNeverActs(a: Attempt, i: nat, es: seq<Event>)
    requires i < |a.threads| && !Capable(a.threads[i])
    ensures !Acts(a, i, es)
    decreases |es|
  {
    if es != [] {
      NeverReenters(a, [es[0]], i);
      assert Run(a, [es[0]]) == Run(Step(a, es[0]), []);
      IncapableNeverActs(Step(a, es[0]), i, es[1..]);
    }
  }

  lemma {:induction false} BusyActsExactly(a: Attempt, es: seq<Event>)
    requires Inv(a) && Busy(a) && NoHalt(es) && OwnMoves(es, |a.threads| - 1) >= 5
    ensures Acts(a, |a.threads| - 1, es) <==> GoesOn(FirstOutcome(es, |a.threads| - 1))
    decreases |es|
  {
    var n := |a.threads| - 1;
    assert es[0] in es;
    var b := Step(a, es[0]);
    if es[0].Move? && es[0].i == n {
      BusyMoves(a, es[0].o);
      if GoesOn(es[0].o) { HeedingActs(b, es[1..]); } else { IncapableNeverActs(b, n, es[1..]); }
    } else {
      BusyOn(a, es[0]);
      BusyActsExactly(b, es[1..]);
    }
  }

  /** In every interleaving with `halt` final, when `carry_on` answers that it woke the attempt, and
      no `halt` comes and the thread gets its turns: the thread runs another phase exactly when it
      was not on its way out, nor in a phase that then ends it. */
  lemma WakeIsActedOnExactly(es: seq<Event>, more: seq<Event>)
    requires HaltIsFinal(es) && Running(Run(FRESH, es)) && NoHalt(more)
    requires OwnMoves(more, |Run(FRESH, es).threads| - 1) >= 5
    ensures var a, n := Run(FRESH, es), |Run(FRESH, es).threads| - 1;
      Acts(Step(a, CarryOn), n, more) <==>
        !Newest(a).Leaving? && (Newest(a).Phase? ==> GoesOn(FirstOutcome(more, n)))
  {
    RunKeepsInv(FRESH, es);
    var a := Run(FRESH, es);
    var b := Step(a, CarryOn);
    StepKeepsInv(a, CarryOn);
    WokenIs(a);
    if Newest(b).Leaving? { IncapableNeverActs(b, |b.threads| - 1, more); }
    else if Busy(b) { BusyActsExactly(b, more); }
    else { HeedingActs(b, more); }
  }

  // ---- what becomes of a halt ----

  predicate NoBegin(es: seq<Event>) { forall e | e in es :: !e.Begin? }

  /** From `halt` on, and until another `begin`, no thread enters a phase, whoever wakes it. */
  lemma {:induction false} HaltedNeverActs(a: Attempt, i: nat, es: seq<Event>)
    requires a.halted && NoBegin(es)
    ensures !Acts(a, i, es)
    decreases |es|
  {
    if es != [] {
      assert es[0] in es;
      HaltedNeverActs(Step(a, es[0]), i, es[1..]);
    }
  }

  /** The attempt is halted, and nothing keeps its newest thread from noticing. */
  predicate Stopping(a: Attempt)
  {
    a.halted && a.threads != [] && !Newest(a).Waiting? && (Newest(a).Phase? || Newest(a).Park? ==> a.wake)
  }

  /** How many of its own moves such a thread is away from its end. */
  function ToEnd(pc: Pc): (n: nat)
  {
    match pc
    case Phase => 5
    case Park(_) => 4
    case Woken(_) => 3
    case Leaving => 1
    case Ended => 0
    case _ => 2
  }

  lemma StoppingOn(a: Attempt, e: Event)
    requires Inv(a) && Stopping(a) && !e.Begin?
    ensures var b := Step(a, e);
      && Inv(b) && Stopping(b) && |b.threads| == |a.threads| && ToEnd(Newest(b)) <= ToEnd(Newest(a))
      && (e.Move? && e.i == |a.threads| - 1 && !Newest(a).Ended? ==> ToEnd(Newest(b)) < ToEnd(Newest(a)))
  {
    StepKeepsInv(a, e);
  }

  lemma {:induction false} StoppingEnds(a: Attempt, es: seq<Event>)
    requires Inv(a) && Stopping(a) && NoBegin(es) && OwnMoves(es, |a.threads| - 1) >= ToEnd(Newest(a))
    ensures |Run(a, es).threads| == |a.threads| && Newest(Run(a, es)).Ended?
    decreases |es|
  {
    if es != [] {
      assert es[0] in es;
      StoppingOn(a, es[0]);
      StoppingEnds(Step(a, es[0]), es[1..]);
    }
  }

  lemma HaltWakes(a: Attempt)
    requires Inv(a) && a.final && a.threads != []
    ensures var b := Step(a, Wake);
      Inv(b) && b.halted && Stopping(b) && |b.threads| == |a.threads| && ToEnd(Newest(b)) <= 5
  {
    StepKeepsInv(a, Wake);
  }

  /** In every interleaving with `halt` final: once `halt` has set the flag and then the event, the
      newest thread is over after five of its own moves, a phase counting as one, and enters
      no phase before. */
  lemma HaltEnds(es: seq<Event>, more: seq<Event>)
    requires HaltIsFinal(es) && Run(FRESH, es).final && Run(FRESH, es).threads != [] && NoBegin(more)
    requires OwnMoves(more, |Run(FRESH, es).threads| - 1) >= 5
    ensures var a, n := Step(Run(FRESH, es), Wake), |Run(FRESH, es).threads| - 1;
      !Acts(a, n, more) && n < |Run(a, more).threads| && Run(a, more).threads[n].Ended?
  {
    RunKeepsInv(FRESH, es);
    HaltWakes(Run(FRESH, es));
    HaltedEnds(Step(Run(FRESH, es), Wake), more);
  }

  lemma HaltedEnds(a: Attempt, more: seq<Event>)
    requires Inv(a) && a.halted && Stopping(a) && ToEnd(Newest(a)) <= 5 && NoBegin(more)
    requires OwnMoves(more, |a.threads| - 1) >= 5
    ensures var n := |a.threads| - 1;
      !Acts(a, n, more) && n < |Run(a, more).threads| && Run(a, more).threads[n].Ended?
  {
    StoppingEnds(a, more);
    HaltedNeverActs(a, |a.threads| - 1, more);
  }

  /** Thread `i` comes back to a loop in `es` before it is inside a phase, and to which: `run`'s or
      the one inside `_main`. */
  predicate ReturnsTo(a: Attempt, i: nat, es: seq<Event>, loop: Pc)
    decreases |es|
  {
    && i < |a.threads| && !a.threads[i].Phase?
    && (a.threads[i] == loop || (es != [] && ReturnsTo(Step(a, es[0]), i, es[1..], loop)))
  }

  /** A thread that parked in a loop comes back to no other. */
  lemma {:induction false} BackToItsLoop(a: Attempt, i: nat, es: seq<Event>, inner: bool)
    requires i < |a.threads|
    requires var pc := a.threads[i];
      || pc == Park(inner) || pc == Waiting(inner) || pc == Woken(inner) || pc == Cleared(inner)
      || (pc.Loop? && !inner) || (pc.InnerLoop? && inner) || pc.Leaving? || pc.Ended?
    ensures !ReturnsTo(a, i, es, if inner then Loop else InnerLoop)
    decreases |es|
  {
    if es != [] && !Step(a, es[0]).threads[i].Phase? { BackToItsLoop(Step(a, es[0]), i, es[1..], inner); }
  }

  /** A wake that came before `begin` is not left over for the thread it starts. */
  predicate Forgot(a: Attempt, n: nat)
  {
    && |a.threads| == n + 1 && Inv(a) && (forall i | 0 <= i < n :: !a.threads[i].Releasing?)
    && (Capable(a.threads[n]) ==> !a.wake && !a.threads[n].Woken? && !a.threads[n].Cleared?)
  }

  lemma ForgotOn(a: Attempt, e: Event, n: nat)
    requires Forgot(a, n) && (e.Move? || e.Halt?)
    ensures Forgot(Step(a, e), n)
  {
    StepKeepsInv(a, e);
  }

  lemma {:induction false} StaysForgotten(a: Attempt, es: seq<Event>, n: nat)
    requires Forgot(a, n) && forall e | e in es :: e.Move? || e.Halt?
    ensures Forgot(Run(a, es), n)
    decreases |es|
  {
    if es != [] {
      assert es[0] in es;
      ForgotOn(a, es[0], n);
      StaysForgotten(Step(a, es[0]), es[1..], n);
    }
  }

  /** A thread that `begin` starts, with none releasing beside it, comes past its first park only by
      a wake that comes after. */
  lemma BeginForgetsWakes(es: seq<Event>, more: seq<Event>)
    requires HaltIsFinal(es) && !Run(FRESH, es).final && !Running(Run(FRESH, es))
    requires forall pc | pc in Run(FRESH, es).threads :: !pc.Releasing?
    requires forall e | e in more :: e.Move? || e.Halt?
    ensures var b := Run(Step(Run(FRESH, es), Begin), more);
      && |b.threads| == |Run(FRESH, es).threads| + 1
      && !Newest(b).Woken? && !Newest(b).Cleared?
  {
    RunKeepsInv(FRESH, es);
    var a := Run(FRESH, es);
    StepKeepsInv(a, Begin);
    StaysForgotten(Step(a, Begin), more, |a.threads|);
  }

  /** The exception is needed: a `release` that sets the event only after `begin` has cleared it
      takes the new thread past its park, although nobody woke it. */
  lemma LateReleaseWakes() returns (es: seq<Event>)
    ensures HaltIsFinal(es) && forall e | e in es :: !e.CarryOn? && !e.Wake?
    ensures Run(FRESH, es).threads == [Leaving, Woken(false)]
  {
    es := Then([], Begin);
    es := Then(es, Move(0, Releases));
    es := Then(es, Move(0, Releases));
    assert Run(FRESH, es) == Attempt([Releasing], true, false, false);
    es := Then(es, Begin);
    es := Then(es, Move(1, Advances));
    es := Then(es, Move(1, Advances));
    assert Run(FRESH, es) == Attempt([Releasing, Park(false)], false, false, false);
    es := Then(es, Move(0, Releases));
    es := Then(es, Move(1, Advances));
  }

  // ---- one phase for one wake ----

  /** `e` sets the event. */
  predicate Sets(a: Attempt, e: Event)
  {
    e.CarryOn? || e.Wake? || (e.Move? && e.i < |a.threads| && a.threads[e.i].Releasing?)
  }

  function Wakes(a: Attempt, es: seq<Event>): (n: nat)
    decreases |es|
  {
    if es == [] then 0 else (if Sets(a, es[0]) then 1 else 0) + Wakes(Step(a, es[0]), es[1..])
  }

  /** How many phases thread `i` enters. */
  function Entries(a: Attempt, i: nat, es: seq<Event>): (n: nat)
    decreases |es|
  {
    if es == [] then 0 else (if Enters(a, es[0], i) then 1 else 0) + Entries(Step(a, es[0]), i, es[1..])
  }

  /** How many phases thread `i` can still enter if nobody sets the event. */
  function Credit(a: Attempt, i: nat): (n: nat)
    requires i < |a.threads|
  {
    var pc, kept := a.threads[i], if a.wake then 1 else 0;
    if !Capable(pc) then 0
    else if pc.Woken? then 1
    else if pc.Loop? || pc.InnerLoop? || pc.Cleared? then 1 + kept
    else kept
  }

  lemma CreditStep(a: Attempt, e: Event, i: nat)
    requires i < |a.threads|
    ensures (if Enters(a, e, i) then 1 else 0) + Credit(Step(a, e), i) <= Credit(a, i) + if Sets(a, e) then 1 else 0
  {
  }

  /** In any run at all a thread enters at most one phase for each time the event is set, beside
      those it had coming: none is acted on twice. */
  lemma {:induction false} OnePhasePerWake(a: Attempt, i: nat, es: seq<Event>)
    requires i < |a.threads|
    ensures i < |Run(a, es).threads|
    ensures Entries(a, i, es) + Credit(Run(a, es), i) <= Credit(a, i) + Wakes(a, es)
    decreases |es|
  {
    if es != [] {
      CreditStep(a, es[0], i);
      OnePhasePerWake(Step(a, es[0]), i, es[1..]);
    }
  }

  /** So a thread that `begin` starts runs one phase, and at most one more for each wake. */
  lemma BegunRunsOnce(a: Attempt, es: seq<Event>)
    requires !Running(a)
    ensures var b := Step(a, Begin); Entries(b, |a.threads|, es) <= 1 + Wakes(b, es)
  {
    OnePhasePerWake(Step(a, Begin), |a.threads|, es);
  }

  // ---- wakes that nobody hears ----

  /** The last phase of an attempt: `carry_on` finds a thread inside it and reports a wake, and the
      thread then leaves without acting on it. */
  lemma LastPhaseDropsWake() returns (es: seq<Event>)
    ensures HaltIsFinal(es) && Running(Run(FRESH, es)) && Run(FRESH, es).threads == [Phase]
    ensures Step(Step(Run(FRESH, es), CarryOn), Move(0, Ends)).threads == [Leaving]
  {
    es := Then([], Begin);
    es := Then(es, Move(0, Ends));
  }

  /** `carry_on` may report a wake that no thread will act on: it sees a thread that has run
      its last phase and is still alive. */
  lemma CarryOnMayWakeNobody() returns (es: seq<Event>)
    ensures HaltIsFinal(es) && Running(Run(FRESH, es))
    ensures forall i | 0 <= i < |Run(FRESH, es).threads| :: !Capable(Run(FRESH, es).threads[i])
  {
    es := Then([], Begin);
    es := Then(es, Move(0, Ends));
    es := Then(es, Move(0, Ends));
    assert Run(FRESH, es).threads == [Leaving];
  }
}
