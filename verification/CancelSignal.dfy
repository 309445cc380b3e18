/**
 The interrupt signal shared by cancelling and cancelled code
 (`InterruptSignal` in crates/jcode-agent-runtime/src/lib.rs), as a state machine:
 any number of threads, one step per atomic load, store, increment or notify.
 */
module CancelSignal {

  type Tid = nat

  /** Where a call stands; each constructor names the step it takes next. */
  datatype Pc =
    | FireStore                  // fire: the epoch is bumped, the flag is not yet set
    | FireNotify                 // fire: the flag is set, waiters are not yet notified
    | ResetCheck(e: nat)         // reset_if_epoch: about to compare the epoch
    | ResetClear(e: nat)         // the epoch matched, about to clear the flag
    | ResetRecheck(e: nat)       // the flag is cleared, about to compare again
    | ResetRestore(e: nat)       // a newer fire was seen, about to set the flag back
    | ResetNotify(e: nat)        // the flag is set back, waiters are not yet notified
    | WaitLook(woken: bool)      // notified: registered, about to read the flag
    | WaitPark(woken: bool)      // notified: the flag was clear, awaiting a wake-up

  /** The shared atomics, the calls in flight, and what completed calls reported. */
  datatype Signal = Signal(
    flag: bool, epoch: nat, calls: map<Tid, Pc>,
    applied: set<nat>,           // epochs for which reset_if_epoch returned true
    plainAt: set<nat>)           // epochs during which an unconditional reset stored

  datatype Action =
    | Fire | ResetIfEpoch(e: nat) | PlainReset | Wait   // begin a call
    | Advance                                           // the call's next step
    | Abandon                                           // drop a waiting future

  const INITIAL := Signal(false, 0, map[], {}, {})

  function Wake(pc: Pc): Pc {
    match pc
    case WaitLook(_) => WaitLook(true)
    case WaitPark(_) => WaitPark(true)
    case _ => pc
  }

  /** `notify_waiters`: wakes whoever is registered now and leaves no permit behind. */
  function NotifyWaiters(calls: map<Tid, Pc>): map<Tid, Pc> {
    map t | t in calls :: Wake(calls[t])
  }

  function Return(s: Signal, t: Tid): Signal {
    s.(calls := s.calls - {t})
  }

  function Goto(s: Signal, t: Tid, pc: Pc): Signal {
    s.(calls := s.calls[t := pc])
  }

  function AdvanceCall(s: Signal, t: Tid): Signal
    requires t in s.calls
  {
    match s.calls[t]
    case FireStore => Goto(s, t, FireNotify).(flag := true)
    case FireNotify => s.(calls := NotifyWaiters(s.calls - {t}))
    case ResetCheck(e) => if s.epoch != e then Return(s, t) else Goto(s, t, ResetClear(e))
    case ResetClear(e) => Goto(s, t, ResetRecheck(e)).(flag := false)
    case ResetRecheck(e) =>
      if s.epoch != e then Goto(s, t, ResetRestore(e)) else Return(s, t).(applied := s.applied + {e})
    case ResetRestore(e) => Goto(s, t, ResetNotify(e)).(flag := true)
    case ResetNotify(_) => s.(calls := NotifyWaiters(s.calls - {t}))
    case WaitLook(woken) => if s.flag then Return(s, t) else Goto(s, t, WaitPark(woken))
    case WaitPark(woken) => if woken then Return(s, t) else s
  }

  /** One step of thread t; an action that does not fit changes nothing. */
  function Step(s: Signal, t: Tid, a: Action): Signal {
    match a
    case Advance => if t in s.calls then AdvanceCall(s, t) else s
    case Abandon =>
      if t in s.calls && Waiting(s.calls[t]) then Return(s, t) else s
    case Fire => if t in s.calls then s else Goto(s, t, FireStore).(epoch := s.epoch + 1)
    case ResetIfEpoch(e) => if t in s.calls then s else Goto(s, t, ResetCheck(e))
    case PlainReset => if t in s.calls then s else s.(flag := false, plainAt := s.plainAt + {s.epoch})
    case Wait => if t in s.calls then s else Goto(s, t, WaitLook(false))
  }

  /** Any interleaving is a list of (thread, action) pairs. */
  function Run(s: Signal, steps: seq<(Tid, Action)>): Signal
    decreases steps
  {
    if steps == [] then s else Run(Step(s, steps[0].0, steps[0].1), steps[1..])
  }

  // ----- no cancel is erased -----

  /** A call that still has to set the flag, or to decide whether its clearing stands. */
  predicate Unsettled(pc: Pc) {
    pc.FireStore? || pc.ResetRecheck? || pc.ResetRestore?
  }

  /** The newest fire has not been taken back by any reset. */
  predicate Live(s: Signal) {
    s.epoch > 0 && s.epoch !in s.applied && s.epoch !in s.plainAt
  }

  ghost predicate CancelKept(s: Signal) {
    !s.flag && Live(s) ==> exists t :: t in s.calls && Unsettled(s.calls[t])
  }

  // ----- no wake-up is lost -----

  predicate Notifying(pc: Pc) {
    pc.FireNotify? || pc.ResetNotify?
  }

  ghost predicate Parked(s: Signal, t: Tid) {
    t in s.calls && s.calls[t] == WaitPark(false)
  }

  ghost predicate NoLostWakeup(s: Signal) {
    s.flag && (exists t :: Parked(s, t)) ==> exists n :: n in s.calls && Notifying(s.calls[n])
  }

  /** Resets name epochs that have been reached. */
  ghost predicate EpochsReached(s: Signal) {
    forall e :: e in s.applied || e in s.plainAt ==> e <= s.epoch
  }

  ghost predicate Inv(s: Signal) {
    CancelKept(s) && NoLostWakeup(s) && EpochsReached(s)
  }

  lemma StepKeepsCancel(s: Signal, t: Tid, a: Action)
    requires Inv(s)
    ensures CancelKept(Step(s, t, a))
  {
    var s' := Step(s, t, a);
    if !s'.flag && Live(s') && !(t in s'.calls && Unsettled(s'.calls[t])) {
      var u :| u in s.calls && Unsettled(s.calls[u]);
      assert u in s'.calls && s'.calls[u] == s.calls[u];
    }
  }

  lemma StepKeepsWakeup(s: Signal, t: Tid, a: Action)
    requires Inv(s)
    ensures NoLostWakeup(Step(s, t, a))
  {
    var s' := Step(s, t, a);
    if s'.flag && (exists w :: Parked(s', w)) && !(t in s'.calls && Notifying(s'.calls[t])) {
      var w :| Parked(s', w);
      assert Parked(s, w);
      var n :| n in s.calls && Notifying(s.calls[n]);
      assert n in s'.calls && s'.calls[n] == s.calls[n];
    }
  }

  lemma StepKeepsInv(s: Signal, t: Tid, a: Action)
    requires Inv(s)
    ensures Inv(Step(s, t, a))
  {
    StepKeepsCancel(s, t, a);
    StepKeepsWakeup(s, t, a);
  }

  lemma {:induction false} RunKeepsInv(s: Signal, steps: seq<(Tid, Action)>)
    requires Inv(s)
    ensures Inv(Run(s, steps))
    decreases steps
  {
    if steps != [] {
      StepKeepsInv(s, steps[0].0, steps[0].1);
      RunKeepsInv(Step(s, steps[0].0, steps[0].1), steps[1..]);
    }
  }

  predicate Waiting(pc: Pc) {
    pc.WaitLook? || pc.WaitPark?
  }

  /** No fire and no reset is in flight; waiters may be. */
  ghost predicate Settled(s: Signal) {
    forall t :: t in s.calls ==> Waiting(s.calls[t])
  }

  /**
   At rest a clear flag means that nothing was ever fired or that the newest fire
   was reset by name: conditionally with its own epoch, or unconditionally.
   */
  lemma NoCancelErased(steps: seq<(Tid, Action)>)
    ensures var s := Run(INITIAL, steps); Settled(s) && !s.flag ==> !Live(s)
  {
    RunKeepsInv(INITIAL, steps);
  }

  lemma {:induction false} NoPlainReset(s: Signal, steps: seq<(Tid, Action)>)
    requires forall i :: 0 <= i < |steps| ==> steps[i].1 != PlainReset
    ensures Run(s, steps).plainAt == s.plainAt
    decreases steps
  {
    if steps != [] {
      NoPlainReset(Step(s, steps[0].0, steps[0].1), steps[1..]);
    }
  }

  /** With conditional resets only, the reset that cleared it returned true for the current epoch. */
  lemma OnlyCurrentEpochClears(steps: seq<(Tid, Action)>)
    requires forall i :: 0 <= i < |steps| ==> steps[i].1 != PlainReset
    ensures var s := Run(INITIAL, steps); Settled(s) && !s.flag ==> s.epoch == 0 || s.epoch in s.applied
  {
    NoCancelErased(steps);
    NoPlainReset(INITIAL, steps);
  }

  lemma NobodyLeftParked(steps: seq<(Tid, Action)>)
    ensures var s := Run(INITIAL, steps); Settled(s) && s.flag ==> forall t :: !Parked(s, t)
  {
    RunKeepsInv(INITIAL, steps);
  }

  // ----- a waiter returns for a reason, and does return -----

  /** The step of a fire or of a restoring reset that wakes whoever waits. */
  predicate NotifyStep(s: Signal, u: Tid, a: Action) {
    a == Advance && u in s.calls && Notifying(s.calls[u])
  }

  /**
   What an observer of a `notified()` call of t sees. It has looked at the flag or not, and
   a notify has come since it registered or not; its steps are those of t. It ends by its first
   step if that finds the flag set, by a later one if a notify has come, or by being dropped.
   */
  ghost predicate SeesEnd(s: Signal, t: Tid, looked: bool, woken: bool, steps: seq<(Tid, Action)>)
    decreases steps
  {
    steps != [] &&
    var (u, a) := steps[0];
    var s' := Step(s, u, a);
    if u == t then a == Abandon || (if looked then woken else s.flag) || SeesEnd(s', t, true, woken, steps[1..])
    else SeesEnd(s', t, looked, woken || NotifyStep(s, u, a), steps[1..])
  }

  /** Thread t does nothing but advance or drop its call. */
  predicate OnlyWaits(t: Tid, steps: seq<(Tid, Action)>) {
    forall i :: 0 <= i < |steps| && steps[i].0 == t ==> steps[i].1 == Advance || steps[i].1 == Abandon
  }

  predicate OnlyAdvances(t: Tid, steps: seq<(Tid, Action)>) {
    forall i :: 0 <= i < |steps| && steps[i].0 == t ==> steps[i].1 == Advance
  }

  lemma OthersLeaveWaiter(s: Signal, t: Tid, u: Tid, a: Action)
    requires t in s.calls && Waiting(s.calls[t]) && u != t
    ensures t in Step(s, u, a).calls
    ensures Step(s, u, a).calls[t] == if NotifyStep(s, u, a) then Wake(s.calls[t]) else s.calls[t]
  {
  }

  lemma {:induction false} StaysOut(s: Signal, t: Tid, steps: seq<(Tid, Action)>)
    requires t !in s.calls && OnlyWaits(t, steps)
    ensures t !in Run(s, steps).calls
    decreases steps
  {
    if steps != [] {
      assert t !in Step(s, steps[0].0, steps[0].1).calls;
      StaysOut(Step(s, steps[0].0, steps[0].1), t, steps[1..]);
    }
  }

  lemma {:induction false} WaiterObserved(
    s: Signal, t: Tid, looked: bool, woken: bool, steps: seq<(Tid, Action)>)
    requires t in s.calls && s.calls[t] == if looked then WaitPark(woken) else WaitLook(woken)
    requires OnlyWaits(t, steps)
    ensures t !in Run(s, steps).calls <==> SeesEnd(s, t, looked, woken, steps)
    decreases steps
  {
    if steps != [] {
      var (u, a) := steps[0];
      var s' := Step(s, u, a);
      if u != t {
        OthersLeaveWaiter(s, t, u, a);
        WaiterObserved(s', t, looked, woken || NotifyStep(s, u, a), steps[1..]);
      } else if a == Abandon || (if looked then woken else s.flag) {
        StaysOut(s', t, steps[1..]);
      } else {
        WaiterObserved(s', t, true, woken, steps[1..]);
      }
    }
  }

  /**
   In any interleaving a `notified()` call is over exactly when it was dropped, its look found the
   flag set, or it took a further step after some notify since it registered.
   */
  lemma WaiterReturnsIff(s: Signal, t: Tid, steps: seq<(Tid, Action)>)
    requires t !in s.calls && OnlyWaits(t, steps)
    ensures t !in Run(Step(s, t, Wait), steps).calls <==> SeesEnd(Step(s, t, Wait), t, false, false, steps)
  {
    WaiterObserved(Step(s, t, Wait), t, false, false, steps);
  }

  /** Nothing was ever fired: the flag is clear and nobody sets it or notifies. */
  ghost predicate Quiet(s: Signal) {
    && !s.flag && s.epoch == 0
    && forall t :: t in s.calls ==>
         match s.calls[t]
         case ResetCheck(_) => true
         case ResetClear(e) => e == 0
         case ResetRecheck(e) => e == 0
         case WaitLook(woken) => !woken
         case WaitPark(woken) => !woken
         case _ => false
  }

  predicate NoFire(steps: seq<(Tid, Action)>) {
    forall i :: 0 <= i < |steps| ==> !steps[i].1.Fire?
  }

  lemma {:induction false} RunQuiet(s: Signal, steps: seq<(Tid, Action)>)
    requires Quiet(s) && NoFire(steps)
    ensures Quiet(Run(s, steps))
    decreases steps
  {
    if steps != [] {
      assert !steps[0].1.Fire?;
      RunQuiet(Step(s, steps[0].0, steps[0].1), steps[1..]);
    }
  }

  lemma {:induction false} QuietSeesNothing(s: Signal, t: Tid, looked: bool, steps: seq<(Tid, Action)>)
    requires Quiet(s) && NoFire(steps) && OnlyAdvances(t, steps)
    ensures !SeesEnd(s, t, looked, false, steps)
    decreases steps
  {
    if steps != [] {
      var (u, a) := steps[0];
      assert !a.Fire?;
      RunQuiet(s, [(u, a)]);
      assert Run(s, [(u, a)]) == Step(s, u, a) by { assert [(u, a)][1..] == []; }
      QuietSeesNothing(Step(s, u, a), t, if u == t then true else looked, steps[1..]);
    }
  }

  /** So, as long as nothing is fired, no waiter returns. */
  lemma NoFireNoReturn(before: seq<(Tid, Action)>, t: Tid, steps: seq<(Tid, Action)>)
    requires NoFire(before) && NoFire(steps) && t !in Run(INITIAL, before).calls && OnlyAdvances(t, steps)
    ensures t in Run(Step(Run(INITIAL, before), t, Wait), steps).calls
  {
    var s := Run(INITIAL, before);
    RunQuiet(INITIAL, before);
    WaiterReturnsIff(s, t, steps);
    QuietSeesNothing(Step(s, t, Wait), t, false, steps);
  }

  // ----- what a reset reports -----

  /** An epoch that is past is never reported as reset again, and what was reported stays so. */
  lemma {:induction false} StaleResetsFail(s: Signal, e: nat, steps: seq<(Tid, Action)>)
    requires e < s.epoch
    ensures e in Run(s, steps).applied <==> e in s.applied
    decreases steps
  {
    if steps != [] {
      StaleResetsFail(Step(s, steps[0].0, steps[0].1), e, steps[1..]);
    }
  }

  /** So every reset reported was of an epoch current at some time since. */
  lemma ReportedWhileCurrent(before: seq<(Tid, Action)>, steps: seq<(Tid, Action)>, e: nat)
    ensures var s, s' := Run(INITIAL, before), Run(Run(INITIAL, before), steps);
            && (e in s'.applied && e !in s.applied ==> s.epoch <= e <= s'.epoch)
            && s.applied <= s'.applied
  {
    var s := Run(INITIAL, before);
    RunKeepsInv(INITIAL, before);
    RunKeepsInv(s, steps);
    AppliedGrows(s, steps);
    if e < s.epoch {
      StaleResetsFail(s, e, steps);
    }
  }

  lemma {:induction false} AppliedGrows(s: Signal, steps: seq<(Tid, Action)>)
    ensures s.applied <= Run(s, steps).applied
    decreases steps
  {
    if steps != [] {
      AppliedGrows(Step(s, steps[0].0, steps[0].1), steps[1..]);
    }
  }

  // ----- when a reset stays in force -----

  /** A reset can report success and still be overtaken by the flag store of the very fire it names. */
  lemma ResetCanBeOvertaken()
    ensures var fired := Step(INITIAL, 0, Fire);
            var reset := Run(fired, [(1, ResetIfEpoch(1)), (1, Advance), (1, Advance), (1, Advance)]);
            var late := Run(reset, [(0, Advance), (0, Advance)]);
            Settled(late) && late.flag && !Live(late) && late.epoch in late.applied
  {
  }

  /** Or by an older reset that clears late, sees the newer epoch and restores a cancel already reset. */
  lemma StaleResetRestores()
    ensures var first := Run(INITIAL, [(0, Fire), (0, Advance), (0, Advance)]);
            var stale := Run(first, [(1, ResetIfEpoch(1)), (1, Advance)]);
            var second := Run(stale, [(0, Fire), (0, Advance), (0, Advance)]);
            var reset := Run(second, [(2, ResetIfEpoch(2)), (2, Advance), (2, Advance), (2, Advance)]);
            var late := Run(reset, [(1, Advance), (1, Advance), (1, Advance), (1, Advance)]);
            && !reset.flag && reset.epoch in reset.applied
            && (forall t :: t in reset.calls ==> !reset.calls[t].FireStore?)
            && Settled(late) && late.flag && !Live(late)
  {
  }

  /** Left alone, the call will set the flag: a fire, or a reset whose epoch is no longer current. */
  predicate WillSet(s: Signal, pc: Pc) {
    pc.FireStore? || pc.ResetRestore? || ((pc.ResetClear? || pc.ResetRecheck?) && pc.e != s.epoch)
  }

  /** Left alone, the call will clear the flag for good. */
  predicate WillClear(s: Signal, pc: Pc) {
    (pc.ResetCheck? || pc.ResetClear?) && pc.e == s.epoch
  }

  ghost predicate SetPending(s: Signal) {
    exists t :: t in s.calls && WillSet(s, s.calls[t])
  }

  ghost predicate ClearPending(s: Signal) {
    exists t :: t in s.calls && WillClear(s, s.calls[t])
  }

  /** Some call in flight will set the flag, or it is set and none will clear it. */
  ghost predicate CanRestSet(s: Signal) {
    SetPending(s) || (s.flag && !ClearPending(s))
  }

  lemma StepKeepsReset(s: Signal, t: Tid, a: Action)
    requires !CanRestSet(s) && !a.Fire?
    ensures !CanRestSet(Step(s, t, a))
  {
    var s' := Step(s, t, a);
    assert forall u :: u in s'.calls && WillSet(s', s'.calls[u]) ==> u in s.calls && WillSet(s, s.calls[u]);
    if s'.flag {
      var u :| u in s.calls && WillClear(s, s.calls[u]);
      assert u in s'.calls && WillClear(s', s'.calls[u]);
    }
  }

  lemma {:induction false} RunKeepsReset(s: Signal, steps: seq<(Tid, Action)>)
    requires !CanRestSet(s) && NoFire(steps)
    ensures !CanRestSet(Run(s, steps))
    decreases steps
  {
    if steps != [] {
      StepKeepsReset(s, steps[0].0, steps[0].1);
      RunKeepsReset(Step(s, steps[0].0, steps[0].1), steps[1..]);
    }
  }

  lemma {:induction false} RunConcat(s: Signal, a: seq<(Tid, Action)>, b: seq<(Tid, Action)>)
    ensures Run(s, a + b) == Run(Run(s, a), b)
    decreases a
  {
    if a == [] {
      assert a + b == b;
    } else {
      assert (a + b)[1..] == a[1..] + b;
      RunConcat(Step(s, a[0].0, a[0].1), a[1..], b);
    }
  }

  function StepsLeft(pc: Pc): nat {
    match pc
    case ResetCheck(_) => 5
    case ResetClear(_) => 4
    case ResetRecheck(_) => 3
    case FireStore => 2
    case ResetRestore(_) => 2
    case FireNotify => 1
    case ResetNotify(_) => 1
    case WaitLook(_) => 0
    case WaitPark(_) => 0
  }

  /** The other fires and resets stand where they stood, under the same epoch. */
  ghost predicate OthersKept(s: Signal, s': Signal, u: Tid) {
    && s'.epoch == s.epoch
    && forall v :: v != u ==>
         && (v in s'.calls <==> v in s.calls)
         && (v in s.calls ==> Waiting(s'.calls[v]) == Waiting(s.calls[v]))
         && (v in s.calls && !Waiting(s.calls[v]) ==> s'.calls[v] == s.calls[v])
  }

  lemma AdvanceKeepsOthers(s: Signal, u: Tid)
    requires u in s.calls && !Waiting(s.calls[u])
    ensures OthersKept(s, AdvanceCall(s, u), u)
    ensures var s' := AdvanceCall(s, u);
            && (u in s'.calls ==> !Waiting(s'.calls[u]) && StepsLeft(s'.calls[u]) < StepsLeft(s.calls[u]))
            && (!WillClear(s, s.calls[u]) && (s.flag || WillSet(s, s.calls[u])) ==>
                  if u !in s'.calls then s'.flag
                  else !WillClear(s', s'.calls[u]) && (s'.flag || WillSet(s', s'.calls[u])))
  {
  }

  /** Runs one fire or reset to its end. */
  lemma {:induction false} FinishCall(s: Signal, u: Tid) returns (steps: seq<(Tid, Action)>)
    requires u in s.calls && !Waiting(s.calls[u])
    ensures NoFire(steps) && u !in Run(s, steps).calls && OthersKept(s, Run(s, steps), u)
    ensures !WillClear(s, s.calls[u]) && (s.flag || WillSet(s, s.calls[u])) ==> Run(s, steps).flag
    decreases StepsLeft(s.calls[u])
  {
    hide WillClear, WillSet;
    AdvanceKeepsOthers(s, u);
    var s', first := AdvanceCall(s, u), [(u, Advance)];
    steps := first;
    assert Run(s, first) == s' by { assert first[1..] == []; }
    if u in s'.calls {
      var rest := FinishCall(s', u);
      RunConcat(s, first, rest);
      steps := first + rest;
    }
  }

  ghost function Busy(s: Signal): set<Tid> {
    set t | t in s.calls && !Waiting(s.calls[t])
  }

  /** Runs every other fire and reset to its end. */
  lemma {:induction false} FinishOthers(s: Signal, t: Tid) returns (steps: seq<(Tid, Action)>)
    requires t in Busy(s)
    ensures var s' := Run(s, steps);
            && NoFire(steps) && s'.epoch == s.epoch && Busy(s') == {t} && s'.calls[t] == s.calls[t]
            && (s.flag && !ClearPending(s) ==> s'.flag)
    decreases Busy(s)
  {
    if Busy(s) == {t} {
      steps := [];
    } else {
      var u :| u in Busy(s) && u != t;
      var first := FinishCall(s, u);
      var s' := Run(s, first);
      assert Busy(s') == Busy(s) - {u};
      if s.flag && !ClearPending(s) {
        assert !WillClear(s, s.calls[u]);
        forall v | v in s'.calls ensures !WillClear(s', s'.calls[v]) {
          assert v != u && (Waiting(s'.calls[v]) || s'.calls[v] == s.calls[v]);
        }
      }
      var rest := FinishOthers(s', t);
      RunConcat(s, first, rest);
      steps := first + rest;
    }
  }

  lemma CanRestSetDoes(s: Signal) returns (steps: seq<(Tid, Action)>)
    requires CanRestSet(s)
    ensures NoFire(steps) && Settled(Run(s, steps)) && Run(s, steps).flag
  {
    if Busy(s) == {} {
      assert forall t :: t in s.calls ==> t !in Busy(s);
      steps := [];
    } else {
      var t :| t in Busy(s) && (SetPending(s) ==> WillSet(s, s.calls[t]));
      var first := FinishOthers(s, t);
      var s' := Run(s, first);
      assert t in Busy(s');
      assert !WillClear(s', s'.calls[t]) && (s'.flag || WillSet(s', s'.calls[t]));
      var last := FinishCall(s', t);
      RunConcat(s, first, last);
      steps := first + last;
      forall u | u in Run(s, steps).calls ensures Waiting(Run(s, steps).calls[u]) {
        assert u !in Busy(s') || u == t;
      }
    }
  }

  /**
   For every state: the signal can come to rest with the flag set, though nothing more
   is fired, exactly when a pending call sets it or it is set and no pending call clears it.
   */
  lemma RestsSetIff(s: Signal)
    ensures (exists steps :: NoFire(steps) && Settled(Run(s, steps)) && Run(s, steps).flag) <==> CanRestSet(s)
  {
    if CanRestSet(s) {
      var steps := CanRestSetDoes(s);
    } else {
      forall steps | NoFire(steps) && Settled(Run(s, steps)) ensures !Run(s, steps).flag {
        RunKeepsReset(s, steps);
      }
    }
  }

  /** The newest fire is reset, and stays so until the next one. */
  ghost predicate StaysReset(s: Signal) {
    !Live(s) ==> forall steps :: NoFire(steps) && Settled(Run(s, steps)) ==> !Run(s, steps).flag
  }

  ghost predicate StaysResetThroughout(s: Signal, steps: seq<(Tid, Action)>)
    decreases steps
  {
    StaysReset(s) && (steps != [] ==> StaysResetThroughout(Step(s, steps[0].0, steps[0].1), steps[1..]))
  }

  /** Whenever a reset takes effect, no call in flight overtakes it. */
  ghost predicate ResetsStand(s: Signal, steps: seq<(Tid, Action)>)
    decreases steps
  {
    steps != [] ==>
      var s' := Step(s, steps[0].0, steps[0].1);
      (Live(s) && !Live(s') ==> !CanRestSet(s')) && ResetsStand(s', steps[1..])
  }

  lemma StepReset(s: Signal, t: Tid, a: Action)
    requires Inv(s) && (!Live(s) ==> !CanRestSet(s))
    requires var s' := Step(s, t, a); Live(s) && !Live(s') ==> !CanRestSet(s')
    ensures var s' := Step(s, t, a); !Live(s') ==> !CanRestSet(s')
  {
    if !Live(s) && !a.Fire? {
      StepKeepsReset(s, t, a);
    }
  }

  lemma {:induction false} ResetsStandFrom(s: Signal, steps: seq<(Tid, Action)>)
    requires Inv(s) && (!Live(s) ==> !CanRestSet(s))
    ensures ResetsStand(s, steps) <==> StaysResetThroughout(s, steps)
    ensures ResetsStand(s, steps) ==> var s' := Run(s, steps); !Live(s') ==> !CanRestSet(s')
    decreases steps
  {
    hide CanRestSet, Live;
    RestsSetIff(s);
    if steps != [] {
      var t, a := steps[0].0, steps[0].1;
      var s' := Step(s, t, a);
      StepKeepsInv(s, t, a);
      RestsSetIff(s');
      if Live(s) && !Live(s') && CanRestSet(s') {
        assert !StaysReset(s');
      } else {
        StepReset(s, t, a);
        ResetsStandFrom(s', steps[1..]);
      }
    }
  }

  /** Over any run, resets stay in force until the next fire exactly when none takes effect while overtaken. */
  lemma ResetsStandIff(steps: seq<(Tid, Action)>)
    ensures ResetsStand(INITIAL, steps) <==> StaysResetThroughout(INITIAL, steps)
  {
    ResetsStandFrom(INITIAL, steps);
  }

  /** Then, at rest, the flag is set exactly while the newest fire has not been reset. */
  lemma FlagExact(steps: seq<(Tid, Action)>)
    requires ResetsStand(INITIAL, steps)
    ensures var s := Run(INITIAL, steps); Settled(s) ==> s.flag == Live(s)
  {
    ResetsStandFrom(INITIAL, steps);
    NoCancelErased(steps);
  }

  /** Fires and resets start only when none is in flight. */
  ghost predicate OneAtATime(s: Signal, steps: seq<(Tid, Action)>)
    decreases steps
  {
    steps != [] ==>
      && (steps[0].1.Fire? || steps[0].1.ResetIfEpoch? || steps[0].1.PlainReset? ==> Settled(s))
      && OneAtATime(Step(s, steps[0].0, steps[0].1), steps[1..])
  }

  /** One fire or reset at most, and it has seen nothing newer. */
  ghost predicate Solo(s: Signal) {
    && EpochsReached(s)
    && (forall t, u :: t in Busy(s) && u in Busy(s) ==> t == u)
    && (forall t :: t in s.calls ==>
          match s.calls[t]
          case ResetClear(e) => e == s.epoch
          case ResetRecheck(e) => e == s.epoch && !s.flag
          case ResetRestore(_) => false
          case _ => true)
  }

  lemma StepSolo(s: Signal, t: Tid, a: Action)
    requires Solo(s) && (a.Fire? || a.ResetIfEpoch? || a.PlainReset? ==> Settled(s))
    ensures Solo(Step(s, t, a))
  {
    assert forall u :: u in s.calls && !Waiting(s.calls[u]) ==> u in Busy(s);
  }

  lemma SoloResetStands(s: Signal, t: Tid, a: Action)
    requires Solo(s) && (a.Fire? || a.ResetIfEpoch? || a.PlainReset? ==> Settled(s))
    requires Live(s) && !Live(Step(s, t, a))
    ensures !CanRestSet(Step(s, t, a))
  {
    var s' := Step(s, t, a);
    forall u | u in s'.calls ensures Waiting(s'.calls[u]) {
      assert a.PlainReset? || t in Busy(s);
      assert u in s.calls && (u in Busy(s) ==> u == t);
    }
  }

  /** In particular resets stand when calls do not overlap. */
  lemma {:induction false} SeparateCallsStand(s: Signal, steps: seq<(Tid, Action)>)
    requires Solo(s) && OneAtATime(s, steps)
    ensures ResetsStand(s, steps)
    decreases steps
  {
    if steps != [] {
      StepSolo(s, steps[0].0, steps[0].1);
      if Live(s) && !Live(Step(s, steps[0].0, steps[0].1)) {
        SoloResetStands(s, steps[0].0, steps[0].1);
      }
      SeparateCallsStand(Step(s, steps[0].0, steps[0].1), steps[1..]);
    }
  }
}
