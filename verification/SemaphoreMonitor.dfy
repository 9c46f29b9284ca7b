/** The counting semaphore of sem_thds/semaphore.cpp as a monitor that any number of threads
    share. Every lock, unlock, park, wake-up and notification is a step of its own, and any
    thread outside the monitor may call Signal or Wait at any time. */
module SemaphoreMonitor {
  import opened Totals
  import opened Wrappers

  /** `count_` is an unsigned 64-bit integer: it wraps. */
  const ULONG: nat := 0x1_0000_0000_0000_0000

  datatype Pc =
    | Outside
      // Signal
    | SignalLock    // about to lock
    | SignalAdd     // holds the mutex, about to increment
    | SignalUnlock  // holds the mutex, about to leave the inner block
    | SignalNotify  // mutex released, about to notify one
      // Wait
    | WaitLock      // about to lock
    | WaitTest      // holds the mutex, about to test the count for the first time
    | Parked        // blocked on the condition variable
    | Woken         // off the condition variable, must lock again
    | WokenTest     // holds the mutex again, about to re-test the count
    | WaitTake      // holds the mutex, saw a positive count, about to decrement
    | WaitUnlock    // holds the mutex, about to return

  /** `added`, `taken` and `wraps` only record history: completed increments, completed
      decrements, and how often the count wrapped. */
  datatype Monitor = Monitor(count: nat, owner: Option<nat>, pc: seq<Pc>,
                             added: nat, taken: nat, wraps: nat)

  datatype Step =
    | CallSignal | CallWait
    | Acquire | Add | Release | Notify(target: Option<nat>)
    | Test | Take
    | Spurious

  function Init(initial: nat, threads: nat): Monitor {
    Monitor(initial, None, seq(threads, _ => Outside), 0, 0, 0)
  }

  predicate Holds(pc: Pc) {
    pc.SignalAdd? || pc.SignalUnlock? || pc.WaitTest? || pc.WokenTest? || pc.WaitTake? || pc.WaitUnlock?
  }

  predicate WantsLock(pc: Pc) {
    pc.SignalLock? || pc.WaitLock? || pc.Woken?
  }

  predicate NobodyParked(pc: seq<Pc>) {
    forall t :: 0 <= t < |pc| ==> pc[t] != Parked
  }

  predicate Enabled(m: Monitor, t: nat, step: Step) {
    t < |m.pc| &&
    match step
    case CallSignal => m.pc[t] == Outside
    case CallWait => m.pc[t] == Outside
    case Acquire => WantsLock(m.pc[t]) && m.owner == None
    case Add => m.pc[t] == SignalAdd
    case Release => m.pc[t].SignalUnlock? || m.pc[t].WaitUnlock?
    case Notify(target) =>
      && m.pc[t] == SignalNotify
      && (match target
          case None => NobodyParked(m.pc)
          case Some(u) => u < |m.pc| && m.pc[u] == Parked)
    case Test => m.pc[t].WaitTest? || m.pc[t].WokenTest?
    case Take => m.pc[t] == WaitTake
    case Spurious => m.pc[t] == Parked
  }

  function Locked(pc: Pc): Pc {
    match pc
    case SignalLock => SignalAdd
    case WaitLock => WaitTest
    case _ => WokenTest
  }

  function Apply(m: Monitor, t: nat, step: Step): Monitor
    requires Enabled(m, t, step)
  {
    match step
    case CallSignal => m.(pc := m.pc[t := SignalLock])
    case CallWait => m.(pc := m.pc[t := WaitLock])
    case Acquire => m.(owner := Some(t), pc := m.pc[t := Locked(m.pc[t])])
    case Add =>
      var full := m.count + 1 == ULONG;
      m.(count := if full then 0 else m.count + 1, added := m.added + 1,
         wraps := if full then m.wraps + 1 else m.wraps, pc := m.pc[t := SignalUnlock])
    case Release =>
      m.(owner := None, pc := m.pc[t := if m.pc[t] == SignalUnlock then SignalNotify else Outside])
    case Notify(target) =>
      var pc := if target == None then m.pc else m.pc[target.value := Woken];
      m.(pc := pc[t := Outside])
    case Test =>
      if m.count == 0
      then m.(owner := None, pc := m.pc[t := Parked])
      else m.(pc := m.pc[t := WaitTake])
    case Take =>
      m.(count := if m.count == 0 then ULONG - 1 else m.count - 1, taken := m.taken + 1, pc := m.pc[t := WaitUnlock])
    case Spurious => m.(pc := m.pc[t := Woken])
  }

  /** `m'` is what the scheduled steps, each enabled in its turn, make of `m`. */
  predicate Runs(m: Monitor, schedule: seq<(nat, Step)>, m': Monitor)
    decreases schedule
  {
    if schedule == [] then m == m'
    else
      && Enabled(m, schedule[0].0, schedule[0].1)
      && Runs(Apply(m, schedule[0].0, schedule[0].1), schedule[1..], m')
  }

  // ----- what every step keeps -----

  function ParkedMark(pc: Pc): nat { if pc == Parked then 1 else 0 }

  /** Woken threads that have not re-tested the count. */
  function WokenMark(pc: Pc): nat { if pc.Woken? || pc.WokenTest? then 1 else 0 }

  /** Signallers that incremented and have not notified. */
  function NotifyingMark(pc: Pc): nat { if pc.SignalUnlock? || pc.SignalNotify? then 1 else 0 }

  /** Waiters that saw a positive count and have not decremented it yet. */
  function TakingMark(pc: Pc): nat { if pc == WaitTake then 1 else 0 }

  ghost predicate MutexHeld(m: Monitor) {
    && (m.owner.Some? ==> m.owner.value < |m.pc|)
    && forall t :: 0 <= t < |m.pc| ==> (Holds(m.pc[t]) <==> m.owner == Some(t))
  }

  ghost predicate TakersHaveTokens(m: Monitor) {
    forall t :: 0 <= t < |m.pc| && m.pc[t] == WaitTake ==> m.count > 0
  }

  ghost predicate WakeupsCovered(m: Monitor) {
    Total(m.pc, ParkedMark) > 0 ==>
      m.count <= Total(m.pc, WokenMark) + Total(m.pc, NotifyingMark) + Total(m.pc, TakingMark)
  }

  ghost predicate TokensKept(initial: nat, m: Monitor) {
    && m.count < ULONG
    && initial + m.added == m.count + m.taken + m.wraps * ULONG
  }

  ghost predicate Inv(initial: nat, m: Monitor) {
    MutexHeld(m) && TakersHaveTokens(m) && WakeupsCovered(m) && TokensKept(initial, m)
  }

  lemma InitInv(initial: nat, threads: nat)
    requires initial < ULONG
    ensures Inv(initial, Init(initial, threads))
  {
    TotalZero(Init(initial, threads).pc, ParkedMark);
  }

  /** One thread moves: how the four counts move with it. */
  lemma CountsMove(pc: seq<Pc>, t: nat, to: Pc)
    requires t < |pc|
    ensures Total(pc[t := to], ParkedMark) + ParkedMark(pc[t]) == Total(pc, ParkedMark) + ParkedMark(to)
    ensures Total(pc[t := to], WokenMark) + WokenMark(pc[t]) == Total(pc, WokenMark) + WokenMark(to)
    ensures Total(pc[t := to], NotifyingMark) + NotifyingMark(pc[t]) == Total(pc, NotifyingMark) + NotifyingMark(to)
    ensures Total(pc[t := to], TakingMark) + TakingMark(pc[t]) == Total(pc, TakingMark) + TakingMark(to)
  {
    TotalUpdate(pc, t, to, ParkedMark);
    TotalUpdate(pc, t, to, WokenMark);
    TotalUpdate(pc, t, to, NotifyingMark);
    TotalUpdate(pc, t, to, TakingMark);
  }

  /** A notification turns the signaller's claim on a token into the woken thread's. */
  lemma NotifyKeepsWakeups(initial: nat, m: Monitor, t: nat, target: Option<nat>)
    requires Inv(initial, m) && Enabled(m, t, Notify(target))
    ensures WakeupsCovered(Apply(m, t, Notify(target)))
  {
    match target
    case Some(u) =>
      CountsMove(m.pc, u, Woken);
      CountsMove(m.pc[u := Woken], t, Outside);
    case None =>
      CountsMove(m.pc, t, Outside);
      TotalZero(m.pc, ParkedMark);
  }

  lemma StepKeepsWakeups(initial: nat, m: Monitor, t: nat, step: Step)
    requires Inv(initial, m) && Enabled(m, t, step) && !step.Notify?
    ensures WakeupsCovered(Apply(m, t, step))
  {
    var to := Apply(m, t, step).pc[t];
    assert Apply(m, t, step).pc == m.pc[t := to];
    CountsMove(m.pc, t, to);
  }

  lemma StepKeepsMutex(initial: nat, m: Monitor, t: nat, step: Step)
    requires Inv(initial, m) && Enabled(m, t, step)
    ensures MutexHeld(Apply(m, t, step)) && TakersHaveTokens(Apply(m, t, step))
  {
  }

  lemma StepKeepsInv(initial: nat, m: Monitor, t: nat, step: Step)
    requires Inv(initial, m) && Enabled(m, t, step)
    ensures Inv(initial, Apply(m, t, step))
  {
    StepKeepsMutex(initial, m, t, step);
    if step.Notify? {
      NotifyKeepsWakeups(initial, m, t, step.target);
    } else {
      StepKeepsWakeups(initial, m, t, step);
    }
  }

  lemma {:induction false} RunKeepsInv(initial: nat, m: Monitor, schedule: seq<(nat, Step)>, m': Monitor)
    requires Inv(initial, m) && Runs(m, schedule, m')
    ensures Inv(initial, m')
    decreases schedule
  {
    if schedule == [] {
    } else {
      var (t, step) := schedule[0];
      StepKeepsInv(initial, m, t, step);
      RunKeepsInv(initial, Apply(m, t, step), schedule[1..], m');
    }
  }

  // ----- theorems over every run of any clients -----

  /** While a thread is parked, every token is spoken for by a thread on its way to re-test, to
      notify or to decrement; with none of those under way a positive count means that nobody
      is parked. */
  lemma NoLostWakeup(initial: nat, threads: nat, schedule: seq<(nat, Step)>, m: Monitor)
    requires initial < 0x1_0000_0000_0000_0000 && Runs(Init(initial, threads), schedule, m)
    ensures !NobodyParked(m.pc) ==>
              m.count <= Total(m.pc, WokenMark) + Total(m.pc, NotifyingMark) + Total(m.pc, TakingMark)
    ensures m.count > 0
            && (forall t :: 0 <= t < |m.pc| ==> m.pc[t] !in {Woken, WokenTest, SignalUnlock, SignalNotify, WaitTake})
            ==> NobodyParked(m.pc)
  {
    InitInv(initial, threads);
    RunKeepsInv(initial, Init(initial, threads), schedule, m);
    if !NobodyParked(m.pc) {
      var t :| 0 <= t < |m.pc| && m.pc[t] == Parked;
      TotalAtLeast(m.pc, t, ParkedMark);
    }
    if forall t :: 0 <= t < |m.pc| ==> m.pc[t] !in {Woken, WokenTest, SignalUnlock, SignalNotify, WaitTake} {
      TotalZero(m.pc, WokenMark);
      TotalZero(m.pc, NotifyingMark);
      TotalZero(m.pc, TakingMark);
    }
  }

  /** Tokens are neither made nor lost while fewer than 2^64 were ever issued, at most one thread
      is inside the mutex, and no decrement happens at zero. */
  lemma TokenConservation(initial: nat, threads: nat, schedule: seq<(nat, Step)>, m: Monitor)
    requires initial < 0x1_0000_0000_0000_0000 && Runs(Init(initial, threads), schedule, m)
    ensures initial + m.added < 0x1_0000_0000_0000_0000 ==> initial + m.added == m.count + m.taken
    ensures m.count < 0x1_0000_0000_0000_0000
    ensures initial + m.added == m.count + m.taken + m.wraps * 0x1_0000_0000_0000_0000
    ensures forall t, u :: 0 <= t < |m.pc| && 0 <= u < |m.pc| && Holds(m.pc[t]) && Holds(m.pc[u]) ==> t == u
    ensures forall t :: Enabled(m, t, Take) ==> m.count > 0
  {
    InitInv(initial, threads);
    RunKeepsInv(initial, Init(initial, threads), schedule, m);
  }

  // ----- whole calls -----

  /** The first parked thread from `from` on. */
  function SomeParked(pc: seq<Pc>, from: nat): (t: Option<nat>)
    requires from <= |pc|
    ensures t.Some? ==> from <= t.value < |pc| && pc[t.value] == Parked
    ensures t.None? ==> forall u :: from <= u < |pc| ==> pc[u] != Parked
    decreases |pc| - from
  {
    if from == |pc| then None else if pc[from] == Parked then Some(from) else SomeParked(pc, from + 1)
  }

  lemma RunsAfter(m: Monitor, t: nat, step: Step, rest: seq<(nat, Step)>, m': Monitor)
    requires Enabled(m, t, step) && Runs(Apply(m, t, step), rest, m')
    ensures Runs(m, [(t, step)] + rest, m')
  {
    assert ([(t, step)] + rest)[1..] == rest;
  }

  lemma {:induction false} RunsAppend(
    m: Monitor, first: seq<(nat, Step)>, mid: Monitor, second: seq<(nat, Step)>, m': Monitor
  )
    requires Runs(m, first, mid) && Runs(mid, second, m')
    ensures Runs(m, first + second, m')
    decreases first
  {
    if first == [] {
      assert first + second == second;
    } else {
      assert (first + second)[1..] == first[1..] + second;
      RunsAppend(Apply(m, first[0].0, first[0].1), first[1..], mid, second, m');
    }
  }

  /** A spurious wake-up: the thread locks the mutex again and re-tests the count. With a token
      there it goes on to decrement; without one it parks again, and nothing has changed. */
  lemma SpuriousWakeupRetests(m: Monitor, t: nat)
    requires t < |m.pc| && m.pc[t] == Parked && m.owner == None
    ensures Runs(m, [(t, Spurious), (t, Acquire), (t, Test)],
                 if m.count == 0 then m else m.(owner := Some(t), pc := m.pc[t := WaitTake]))
  {
    var m1 := m.(pc := m.pc[t := Woken]);
    assert Apply(m, t, Spurious) == m1;
    RelockRetests(m1, t);
    assert m1.pc[t := Parked] == m.pc && m1.pc[t := WaitTake] == m.pc[t := WaitTake];
    RunsAfter(m, t, Spurious, [(t, Acquire), (t, Test)],
              if m.count == 0 then m else m.(owner := Some(t), pc := m.pc[t := WaitTake]));
    assert [(t, Spurious)] + [(t, Acquire), (t, Test)] == [(t, Spurious), (t, Acquire), (t, Test)];
  }

  /** A woken thread, when it gets the mutex back: the count decides whether it parks again. */
  lemma RelockRetests(m: Monitor, t: nat)
    requires t < |m.pc| && m.pc[t] == Woken && m.owner == None
    ensures Runs(m, [(t, Acquire), (t, Test)],
                 if m.count == 0 then m.(pc := m.pc[t := Parked])
                 else m.(owner := Some(t), pc := m.pc[t := WaitTake]))
  {
    var m1 := Apply(m, t, Acquire);
    var m2 := Apply(m1, t, Test);
    RunsAfter(m1, t, Test, [], m2);
    RunsAfter(m, t, Acquire, [(t, Test)], m2);
    assert [(t, Acquire)] + [(t, Test)] == [(t, Acquire), (t, Test)];
    assert m2.pc == m.pc[t := if m.count == 0 then Parked else WaitTake];
  }

  /** The rest of Wait behind a positive test takes one token and leaves the mutex free. */
  lemma TakeReturns(m: Monitor, t: nat)
    requires t < |m.pc| && m.pc[t] == WaitTake && m.owner == Some(t) && m.count > 0
    ensures Runs(m, [(t, Take), (t, Release)],
                 m.(count := m.count - 1, owner := None, taken := m.taken + 1, pc := m.pc[t := Outside]))
  {
    var m1 := Apply(m, t, Take);
    var m2 := Apply(m1, t, Release);
    RunsAfter(m1, t, Release, [], m2);
    RunsAfter(m, t, Take, [(t, Release)], m2);
    assert [(t, Take)] + [(t, Release)] == [(t, Take), (t, Release)];
    assert m2.pc == m.pc[t := Outside];
  }

  /** Up to the first test Wait only takes the mutex; it parks there, with the mutex free again,
      exactly when the count is zero. */
  lemma WaitTests(m: Monitor, t: nat)
    requires t < |m.pc| && m.pc[t] == Outside && m.owner == None
    ensures Runs(m, [(t, CallWait), (t, Acquire), (t, Test)],
                 if m.count == 0 then m.(pc := m.pc[t := Parked])
                 else m.(owner := Some(t), pc := m.pc[t := WaitTake]))
  {
    var m1 := Apply(m, t, CallWait);
    var m2 := Apply(m1, t, Acquire);
    var m3 := Apply(m2, t, Test);
    RunsAfter(m2, t, Test, [], m3);
    RunsAfter(m1, t, Acquire, [(t, Test)], m3);
    RunsAfter(m, t, CallWait, [(t, Acquire), (t, Test)], m3);
    assert [(t, CallWait)] + ([(t, Acquire)] + [(t, Test)]) == [(t, CallWait), (t, Acquire), (t, Test)];
    assert m3.pc == m.pc[t := if m.count == 0 then Parked else WaitTake];
  }

  /** A call of Wait that finds a token takes it and returns; nothing else has changed. */
  lemma WaitTakesOneToken(m: Monitor, t: nat)
    requires t < |m.pc| && m.pc[t] == Outside && m.owner == None && m.count > 0
    ensures Runs(m, [(t, CallWait), (t, Acquire), (t, Test), (t, Take), (t, Release)],
                 m.(count := m.count - 1, taken := m.taken + 1))
  {
    var m1 := m.(owner := Some(t), pc := m.pc[t := WaitTake]);
    WaitTests(m, t);
    TakeReturns(m1, t);
    assert m1.pc[t := Outside] == m.pc;
    RunsAppend(m, [(t, CallWait), (t, Acquire), (t, Test)], m1, [(t, Take), (t, Release)],
               m.(count := m.count - 1, taken := m.taken + 1));
    assert [(t, CallWait), (t, Acquire), (t, Test)] + [(t, Take), (t, Release)]
        == [(t, CallWait), (t, Acquire), (t, Test), (t, Take), (t, Release)];
  }

  /** The steps of one call of Signal. */
  function SignalSteps(t: nat, target: Option<nat>): seq<(nat, Step)> {
    [(t, CallSignal), (t, Acquire), (t, Add), (t, Release), (t, Notify(target))]
  }

  /** Lock, increment and unlock. */
  lemma SignalAdds(m: Monitor, t: nat)
    requires t < |m.pc| && m.pc[t] == Outside && m.owner == None
    requires m.count < 0x1_0000_0000_0000_0000
    ensures Runs(m, [(t, CallSignal), (t, Acquire), (t, Add), (t, Release)],
                 m.(count := (m.count + 1) % 0x1_0000_0000_0000_0000, added := m.added + 1,
                    wraps := m.wraps + (m.count + 1) / 0x1_0000_0000_0000_0000, pc := m.pc[t := SignalNotify]))
  {
    var m1 := Apply(m, t, CallSignal);
    var m2 := Apply(m1, t, Acquire);
    var m3 := Apply(m2, t, Add);
    var m4 := Apply(m3, t, Release);
    assert m4.pc == m.pc[t := SignalNotify];
    RunsAfter(m3, t, Release, [], m4);
    RunsAfter(m2, t, Add, [(t, Release)], m4);
    RunsAfter(m1, t, Acquire, [(t, Add)] + [(t, Release)], m4);
    RunsAfter(m, t, CallSignal, [(t, Acquire)] + ([(t, Add)] + [(t, Release)]), m4);
    assert [(t, CallSignal)] + ([(t, Acquire)] + ([(t, Add)] + [(t, Release)]))
        == [(t, CallSignal), (t, Acquire), (t, Add), (t, Release)];
  }

  /** A call of Signal adds one token, or wraps, and wakes one parked thread, any one of them, if
      there is one; nothing else has changed. */
  lemma SignalAddsOneToken(m: Monitor, t: nat, target: Option<nat>)
    requires t < |m.pc| && m.pc[t] == Outside && m.owner == None
    requires m.count < 0x1_0000_0000_0000_0000
    requires match target
             case None => forall u :: 0 <= u < |m.pc| ==> m.pc[u] != Parked
             case Some(u) => u < |m.pc| && m.pc[u] == Parked
    ensures Runs(m, SignalSteps(t, target),
                 m.(count := (m.count + 1) % 0x1_0000_0000_0000_0000, added := m.added + 1,
                    wraps := m.wraps + (m.count + 1) / 0x1_0000_0000_0000_0000,
                    pc := if target.Some? then m.pc[target.value := Woken] else m.pc))
  {
    var m1 := m.(count := (m.count + 1) % 0x1_0000_0000_0000_0000, added := m.added + 1,
                 wraps := m.wraps + (m.count + 1) / 0x1_0000_0000_0000_0000, pc := m.pc[t := SignalNotify]);
    var m2 := m1.(pc := if target.Some? then m.pc[target.value := Woken] else m.pc);
    SignalAdds(m, t);
    assert Enabled(m1, t, Notify(target));
    assert Apply(m1, t, Notify(target)).pc == m2.pc;
    RunsAfter(m1, t, Notify(target), [], m2);
    RunsAppend(m, [(t, CallSignal), (t, Acquire), (t, Add), (t, Release)], m1, [(t, Notify(target))], m2);
    assert SignalSteps(t, target)
        == [(t, CallSignal), (t, Acquire), (t, Add), (t, Release)] + [(t, Notify(target))];
  }

  /** A woken thread that finds a token gets through Wait with it. */
  lemma WokenTakesOneToken(m: Monitor, u: nat)
    requires u < |m.pc| && m.pc[u] == Woken && m.owner == None && m.count > 0
    ensures Runs(m, [(u, Acquire), (u, Test)] + [(u, Take), (u, Release)],
                 m.(count := m.count - 1, taken := m.taken + 1, pc := m.pc[u := Outside]))
  {
    RelockRetests(m, u);
    var mid := m.(owner := Some(u), pc := m.pc[u := WaitTake]);
    TakeReturns(mid, u);
    assert mid.pc[u := Outside] == m.pc[u := Outside];
    RunsAppend(m, [(u, Acquire), (u, Test)], mid, [(u, Take), (u, Release)],
               m.(count := m.count - 1, taken := m.taken + 1, pc := m.pc[u := Outside]));
  }

  lemma SignalWakes(m: Monitor, t: nat, u: nat)
    requires t < |m.pc| && m.pc[t] == Outside && m.owner == None && m.count == 0
    requires u < |m.pc| && m.pc[u] == Parked
    ensures Runs(m, SignalSteps(t, Some(u)), m.(count := 1, added := m.added + 1, pc := m.pc[u := Woken]))
  {
    SignalAddsOneToken(m, t, Some(u));
  }

  /** A signal releases a parked thread: the thread it wakes gets through Wait with the token, and
      count and mutex are as before. */
  lemma SignalReleasesParked(m: Monitor, t: nat, u: nat)
    requires t < |m.pc| && m.pc[t] == Outside && m.owner == None && m.count == 0
    requires u < |m.pc| && m.pc[u] == Parked
    ensures Runs(m, SignalSteps(t, Some(u)) + ([(u, Acquire), (u, Test)] + [(u, Take), (u, Release)]),
                 m.(added := m.added + 1, taken := m.taken + 1, pc := m.pc[u := Outside]))
  {
    var mid := m.(count := 1, added := m.added + 1, pc := m.pc[u := Woken]);
    SignalWakes(m, t, u);
    WokenTakesOneToken(mid, u);
    assert mid.pc[u := Outside] == m.pc[u := Outside];
    RunsAppend(m, SignalSteps(t, Some(u)), mid, [(u, Acquire), (u, Test)] + [(u, Take), (u, Release)],
               m.(added := m.added + 1, taken := m.taken + 1, pc := m.pc[u := Outside]));
  }

  /** Inside a call a thread can take a step of its own, spurious wake-ups aside, unless it is
      parked or wants the mutex while somebody has it; and that step is the only one, up to the
      choice of whom to notify. */
  lemma HeldUpExactlyWhen(m: Monitor, t: nat)
    requires t < |m.pc| && m.pc[t] != Outside
    ensures (exists step :: Enabled(m, t, step) && step != Spurious)
            <==> m.pc[t] != Parked && (m.pc[t] in {SignalLock, WaitLock, Woken} ==> m.owner == None)
    ensures forall a, b :: Enabled(m, t, a) && Enabled(m, t, b) ==> a == b || (a.Notify? && b.Notify?)
  {
    var step := match m.pc[t]
      case SignalAdd => Add
      case SignalNotify => Notify(SomeParked(m.pc, 0))
      case WaitTake => Take
      case SignalUnlock => Release
      case WaitUnlock => Release
      case WaitTest => Test
      case WokenTest => Test
      case _ => Acquire;
    if m.pc[t] != Parked && (WantsLock(m.pc[t]) ==> m.owner == None) {
      assert Enabled(m, t, step);
    }
  }

  // ----- the shared object -----

  /** The semaphore object: each method is one indivisible step of Signal or Wait, taken by
      thread `t` when its program counter allows it. `added`, `taken` and `wraps` are kept for the
      record. */
  class Semaphore {
    var count: nat
    var owner: Option<nat>
    var pc: seq<Pc>
    var added: nat
    var taken: nat
    var wraps: nat
    ghost const initial: nat

    function View(): Monitor
      reads this
    {
      Monitor(count, owner, pc, added, taken, wraps)
    }

    ghost predicate Valid()
      reads this
    {
      Inv(initial, View())
    }

    constructor (count: nat, threads: nat)
      requires count < ULONG
      ensures Valid() && View() == Init(count, threads) && initial == count
    {
      this.count := count;
      owner := None;
      pc := seq(threads, _ => Outside);
      added, taken, wraps := 0, 0, 0;
      initial := count;
      new;
      InitInv(count, threads);
    }

    method EnterSignal(t: nat)
      requires Valid() && t < |pc| && pc[t] == Outside
      modifies this
      ensures Valid() && View() == Apply(old(View()), t, CallSignal)
      ensures pc == old(pc)[t := SignalLock] && count == old(count) && owner == old(owner)
    {
      StepKeepsInv(initial, View(), t, CallSignal);
      pc := pc[t := SignalLock];
    }

    method EnterWait(t: nat)
      requires Valid() && t < |pc| && pc[t] == Outside
      modifies this
      ensures Valid() && View() == Apply(old(View()), t, CallWait)
      ensures pc == old(pc)[t := WaitLock] && count == old(count) && owner == old(owner)
    {
      StepKeepsInv(initial, View(), t, CallWait);
      pc := pc[t := WaitLock];
    }

    method LockMutex(t: nat)
      requires Valid() && t < |pc| && pc[t] in {SignalLock, WaitLock, Woken} && owner == None
      modifies this
      ensures Valid() && View() == Apply(old(View()), t, Acquire)
      ensures forall u :: 0 <= u < |pc| && Holds(pc[u]) ==> u == t
      ensures owner == Some(t) && count == old(count)
    {
      StepKeepsInv(initial, View(), t, Acquire);
      owner := Some(t);
      match pc[t]
      case SignalLock => pc := pc[t := SignalAdd];
      case WaitLock => pc := pc[t := WaitTest];
      case Woken => pc := pc[t := WokenTest];
    }

    method Increment(t: nat)
      requires Valid() && t < |pc| && pc[t] == SignalAdd
      modifies this
      ensures Valid() && View() == Apply(old(View()), t, Add)
      ensures initial + added < 0x1_0000_0000_0000_0000 ==> count == old(count) + 1
      ensures count == (old(count) + 1) % 0x1_0000_0000_0000_0000
      ensures pc == old(pc)[t := SignalUnlock] && owner == old(owner)
    {
      StepKeepsInv(initial, View(), t, Add);
      if count + 1 == ULONG {
        count, wraps := 0, wraps + 1;
      } else {
        count := count + 1;
      }
      added := added + 1;
      pc := pc[t := SignalUnlock];
    }

    method UnlockMutex(t: nat)
      requires Valid() && t < |pc| && pc[t] in {SignalUnlock, WaitUnlock}
      modifies this
      ensures Valid() && View() == Apply(old(View()), t, Release)
      ensures forall u :: 0 <= u < |pc| ==> !Holds(pc[u])
      ensures owner == None && count == old(count)
      ensures pc == old(pc)[t := if old(pc)[t] == SignalUnlock then SignalNotify else Outside]
    {
      StepKeepsInv(initial, View(), t, Release);
      owner := None;
      pc := pc[t := if pc[t] == SignalUnlock then SignalNotify else Outside];
    }

    method Wake(t: nat, target: Option<nat>)
      requires Valid() && Enabled(View(), t, Notify(target))
      modifies this
      ensures Valid() && View() == Apply(old(View()), t, Notify(target))
    {
      StepKeepsInv(initial, View(), t, Notify(target));
      if target.Some? {
        pc := pc[target.value := Woken];
      }
      pc := pc[t := Outside];
    }

    /** Wakes one parked thread if there is any; which one is up to the implementation. */
    method NotifyOne(t: nat) returns (woken: Option<nat>)
      requires Valid() && t < |pc| && pc[t] == SignalNotify
      modifies this
      ensures Valid() && Enabled(old(View()), t, Notify(woken)) && View() == Apply(old(View()), t, Notify(woken))
      ensures woken == None <==> forall u :: 0 <= u < |old(pc)| ==> old(pc)[u] != Parked
      ensures pc == (if woken.Some? then old(pc)[woken.value := Woken] else old(pc))[t := Outside]
      ensures count == old(count) && owner == old(owner)
    {
      woken := SomeParked(pc, 0);
      Wake(t, woken);
    }

    /** The loop test of Wait: park and release the mutex at zero, otherwise go on to take. */
    method TestCount(t: nat) returns (positive: bool)
      requires Valid() && t < |pc| && pc[t] in {WaitTest, WokenTest}
      modifies this
      ensures Valid() && View() == Apply(old(View()), t, Test)
      ensures positive == (count > 0) && (if positive then owner == Some(t) else owner == None)
      ensures pc == old(pc)[t := if positive then WaitTake else Parked] && count == old(count)
    {
      StepKeepsInv(initial, View(), t, Test);
      positive := count > 0;
      if positive {
        pc := pc[t := WaitTake];
      } else {
        owner := None;
        pc := pc[t := Parked];
      }
    }

    method Decrement(t: nat)
      requires Valid() && t < |pc| && pc[t] == WaitTake
      modifies this
      ensures Valid() && View() == Apply(old(View()), t, Take)
      ensures count == old(count) - 1
      ensures pc == old(pc)[t := WaitUnlock] && owner == old(owner)
    {
      StepKeepsInv(initial, View(), t, Take);
      count := count - 1;
      taken := taken + 1;
      pc := pc[t := WaitUnlock];
    }

    method SpuriousWakeup(t: nat)
      requires Valid() && t < |pc| && pc[t] == Parked
      modifies this
      ensures Valid() && View() == Apply(old(View()), t, Spurious)
      ensures pc == old(pc)[t := Woken] && count == old(count) && owner == old(owner)
    {
      StepKeepsInv(initial, View(), t, Spurious);
      pc := pc[t := Woken];
    }
  }
}
