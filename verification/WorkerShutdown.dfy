/** The program around the semaphore (main and thread_func of sem_thds/semaphore.cpp): a main
    thread starts T workers, issues M work signals, raises the exit flag, issues T exit signals
    and joins the workers. T and M are arbitrary; the source has 8 and 50000. */
module WorkerShutdown {
  import opened Totals
  import opened SemaphoreMonitor
  import opened Wrappers

  datatype MainPc =
    | Spawning(next: nat)    // thread creation loop
    | Sending(sent: nat)     // work loop, between two calls of Signal
    | InSend(sent: nat)      // inside Signal
    | RaisingExit            // about to set g_exit
    | Releasing(sent: nat)   // exit loop, between two calls of Signal
    | InRelease(sent: nat)   // inside Signal
    | Joining(next: nat)     // join loop
    | Finished

  datatype Stage = Unborn | LoopHead | InWait | CheckExit | Printing | Exited

  /** Worker `w` is thread `w` of the monitor; the main thread is thread `|stage|`. */
  datatype Sys = Sys(jobs: nat, mon: Monitor, main: MainPc, stage: seq<Stage>, exitFlag: bool, printed: nat)
  {
    function Workers(): nat { |stage| }
  }

  datatype Action =
    | Spawn | SpawnDone
    | BeginSend | SendsDone
    | RaiseExit
    | BeginRelease | ReleasesDone
    | Join | JoinsDone
    | BeginWait(w: nat)
    | InMonitor(t: nat, step: Step)  // a step inside a call of Signal or Wait
    | ReadExit(w: nat)
    | PrintLine(w: nat)

  function Start(workers: nat, jobs: nat): Sys {
    Sys(jobs, Init(0, workers + 1), Spawning(0), seq(workers, _ => Unborn), false, 0)
  }

  predicate Can(s: Sys, a: Action) {
    match a
    case Spawn => s.main.Spawning? && s.main.next < s.Workers()
    case SpawnDone => s.main.Spawning? && s.main.next >= s.Workers()
    case BeginSend => s.main.Sending? && s.main.sent < s.jobs && Enabled(s.mon, s.Workers(), CallSignal)
    case SendsDone => s.main.Sending? && s.main.sent >= s.jobs
    case RaiseExit => s.main.RaisingExit?
    case BeginRelease => s.main.Releasing? && s.main.sent < s.Workers() && Enabled(s.mon, s.Workers(), CallSignal)
    case ReleasesDone => s.main.Releasing? && s.main.sent >= s.Workers()
    case Join => s.main.Joining? && s.main.next < s.Workers() && s.stage[s.main.next] == Exited
    case JoinsDone => s.main.Joining? && s.main.next >= s.Workers()
    case BeginWait(w) => w < s.Workers() && s.stage[w] == LoopHead && Enabled(s.mon, w, CallWait)
    case InMonitor(t, step) => !step.CallSignal? && !step.CallWait? && Enabled(s.mon, t, step)
    case ReadExit(w) => w < s.Workers() && s.stage[w] == CheckExit
    case PrintLine(w) => w < s.Workers() && s.stage[w] == Printing
  }

  /** A call of Signal or Wait that has just returned puts its caller behind the call. */
  function AfterReturn(s: Sys, t: nat): Sys {
    if t < s.Workers() then
      if s.stage[t] == InWait then s.(stage := s.stage[t := CheckExit]) else s
    else
      match s.main
      case InSend(k) => s.(main := Sending(k + 1))
      case InRelease(k) => s.(main := Releasing(k + 1))
      case _ => s
  }

  function Do(s: Sys, a: Action): Sys
    requires Can(s, a)
  {
    match a
    case Spawn => s.(stage := s.stage[s.main.next := LoopHead], main := Spawning(s.main.next + 1))
    case SpawnDone => s.(main := Sending(0))
    case BeginSend => s.(mon := Apply(s.mon, s.Workers(), CallSignal), main := InSend(s.main.sent))
    case SendsDone => s.(main := RaisingExit)
    case RaiseExit => s.(exitFlag := true, main := Releasing(0))
    case BeginRelease => s.(mon := Apply(s.mon, s.Workers(), CallSignal), main := InRelease(s.main.sent))
    case ReleasesDone => s.(main := Joining(0))
    case Join => s.(main := Joining(s.main.next + 1))
    case JoinsDone => s.(main := Finished)
    case BeginWait(w) => s.(mon := Apply(s.mon, w, CallWait), stage := s.stage[w := InWait])
    case InMonitor(t, step) =>
      var s' := s.(mon := Apply(s.mon, t, step));
      if s'.mon.pc[t] == Outside then AfterReturn(s', t) else s'
    case ReadExit(w) => s.(stage := s.stage[w := if s.exitFlag then Exited else Printing])
    case PrintLine(w) => s.(stage := s.stage[w := LoopHead], printed := s.printed + 1)
  }

  predicate Runs(s: Sys, schedule: seq<Action>, s': Sys)
    decreases schedule
  {
    if schedule == [] then s == s'
    else Can(s, schedule[0]) && Runs(Do(s, schedule[0]), schedule[1..], s')
  }

  // ----- what every step keeps -----

  function CheckingMark(g: Stage): nat { if g == CheckExit then 1 else 0 }
  function PrintingMark(g: Stage): nat { if g == Printing then 1 else 0 }
  function ExitedMark(g: Stage): nat { if g == Exited then 1 else 0 }
  function ReturningMark(pc: Pc): nat { if pc == WaitUnlock then 1 else 0 }

  predicate InSignal(pc: Pc) { pc.SignalLock? || pc.SignalAdd? || pc.SignalUnlock? || pc.SignalNotify? }

  predicate InWaitCall(pc: Pc) {
    !InSignal(pc) && !pc.Outside?
  }

  /** The thread is inside Signal and has not incremented yet. */
  predicate BeforeAdd(pc: Pc) { pc.SignalLock? || pc.SignalAdd? }

  predicate MainLinked(main: MainPc, pc: Pc) {
    if main.InSend? || main.InRelease? then InSignal(pc) else pc == Outside
  }

  /** Signals that main has completed the increment of. */
  function Issued(s: Sys): int
    requires |s.mon.pc| == s.Workers() + 1
  {
    var inCall := if BeforeAdd(s.mon.pc[s.Workers()]) then 0 else 1;
    match s.main
    case Spawning(_) => 0
    case Sending(k) => k
    case InSend(k) => k + inCall
    case RaisingExit => s.jobs
    case Releasing(k) => s.jobs + k
    case InRelease(k) => s.jobs + k + inCall
    case Joining(_) => s.jobs + s.Workers()
    case Finished => s.jobs + s.Workers()
  }

  predicate CountersInRange(s: Sys) {
    match s.main
    case Spawning(k) => k <= s.Workers()
    case Sending(k) => k <= s.jobs
    case InSend(k) => k < s.jobs
    case Releasing(k) => k <= s.Workers()
    case InRelease(k) => k < s.Workers()
    case Joining(k) => k <= s.Workers()
    case _ => true
  }

  ghost predicate Linked(s: Sys) {
    && |s.mon.pc| == s.Workers() + 1
    && MainLinked(s.main, s.mon.pc[s.Workers()])
    && (forall w :: 0 <= w < s.Workers() ==>
          if s.stage[w] == InWait then InWaitCall(s.mon.pc[w]) else s.mon.pc[w] == Outside)
    && CountersInRange(s)
    && (s.exitFlag <==> s.main.Releasing? || s.main.InRelease? || s.main.Joining? || s.main.Finished?)
    && s.mon.added == Issued(s)
  }

  ghost predicate StagesInStep(s: Sys) {
    && (forall w :: 0 <= w < s.Workers() ==>
          (s.stage[w] == Unborn <==> s.main.Spawning? && s.main.next <= w))
    && (forall w :: 0 <= w < s.Workers() && s.stage[w] == Exited ==> s.exitFlag)
    && (s.main.Joining? ==> forall w :: 0 <= w < s.main.next && w < s.Workers() ==> s.stage[w] == Exited)
    && (s.main.Finished? ==> forall w :: 0 <= w < s.Workers() ==> s.stage[w] == Exited)
  }

  /** Workers that are through their last Wait, or at least out of the current one. */
  ghost function Past(s: Sys): nat {
    Total(s.stage, CheckingMark) + Total(s.stage, ExitedMark) + Total(s.mon.pc, ReturningMark)
  }

  /** Every completed Wait is accounted for by a printed line or by a worker past its Wait;
      only work signals are ever printed; and once the exit flag is up the tokens present and
      still to come are enough for all the workers that must pass Wait once more. */
  ghost predicate Accounts(s: Sys) {
    && s.mon.taken == s.printed + Total(s.stage, PrintingMark) + Past(s)
    && s.printed + Total(s.stage, PrintingMark) <= s.jobs
    && (s.exitFlag && |s.mon.pc| == s.Workers() + 1 ==>
          s.mon.count + (s.jobs + s.Workers() - Issued(s)) + Past(s) >= s.Workers())
  }

  ghost predicate Good(s: Sys) {
    && SemaphoreMonitor.Inv(0, s.mon)
    && Linked(s) && StagesInStep(s) && Accounts(s)
  }

  ghost predicate FitsCounter(s: Sys) {
    s.jobs + s.Workers() < ULONG
  }

  lemma StartGood(workers: nat, jobs: nat)
    requires workers + jobs < ULONG
    ensures Good(Start(workers, jobs)) && FitsCounter(Start(workers, jobs))
  {
    var s := Start(workers, jobs);
    InitInv(0, workers + 1);
    TotalZero(s.stage, CheckingMark);
    TotalZero(s.stage, PrintingMark);
    TotalZero(s.stage, ExitedMark);
    TotalZero(s.mon.pc, ReturningMark);
  }

  lemma StagesMove(stage: seq<Stage>, w: nat, to: Stage)
    requires w < |stage|
    ensures Total(stage[w := to], CheckingMark) + CheckingMark(stage[w])
            == Total(stage, CheckingMark) + CheckingMark(to)
    ensures Total(stage[w := to], PrintingMark) + PrintingMark(stage[w])
            == Total(stage, PrintingMark) + PrintingMark(to)
    ensures Total(stage[w := to], ExitedMark) + ExitedMark(stage[w])
            == Total(stage, ExitedMark) + ExitedMark(to)
  {
    TotalUpdate(stage, w, to, CheckingMark);
    TotalUpdate(stage, w, to, PrintingMark);
    TotalUpdate(stage, w, to, ExitedMark);
  }

  lemma ReturningMoves(m: Monitor, t: nat, step: Step)
    requires Enabled(m, t, step)
    ensures Total(Apply(m, t, step).pc, ReturningMark) + ReturningMark(m.pc[t])
         == Total(m.pc, ReturningMark) + ReturningMark(Apply(m, t, step).pc[t])
  {
    var m' := Apply(m, t, step);
    if step.Notify? && step.target.Some? {
      var u := step.target.value;
      TotalUpdate(m.pc, u, Woken, ReturningMark);
      TotalUpdate(m.pc[u := Woken], t, Outside, ReturningMark);
    } else {
      TotalUpdate(m.pc, t, m'.pc[t], ReturningMark);
      assert m'.pc == m.pc[t := m'.pc[t]];
    }
  }

  /** What a step inside a call can do, seen from the program: only the stepping thread moves,
      except that a parked thread may be woken, and the counters follow its program counter. */
  ghost predicate CallStep(m: Monitor, t: nat, m': Monitor) {
    && t < |m.pc| == |m'.pc|
    && (forall u :: 0 <= u < |m.pc| && u != t ==> m'.pc[u] == m.pc[u] || (m.pc[u].Parked? && m'.pc[u].Woken?))
    && !m.pc[t].Outside?
    && (m'.pc[t].Outside? || (InSignal(m'.pc[t]) <==> InSignal(m.pc[t])))
    && (m'.pc[t].Outside? <==> m.pc[t].SignalNotify? || m.pc[t].WaitUnlock?)
    && m'.added == m.added + (if m.pc[t].SignalAdd? then 1 else 0)
    && (BeforeAdd(m'.pc[t]) <==> m.pc[t].SignalLock?)
    && m'.taken == m.taken + ReturningMark(m'.pc[t])
    && (m'.pc[t].WaitUnlock? <==> m.pc[t].WaitTake?)
    && m'.count == (if m.pc[t].SignalAdd? then m.count + 1
                    else if m.pc[t].WaitTake? then m.count - 1 else m.count)
    && Total(m'.pc, ReturningMark) + ReturningMark(m.pc[t]) == Total(m.pc, ReturningMark) + ReturningMark(m'.pc[t])
  }

  lemma StepInsideCall(m: Monitor, t: nat, step: Step)
    requires SemaphoreMonitor.Inv(0, m) && m.added < ULONG
    requires t < |m.pc| && m.pc[t].SignalAdd? ==> m.added + 1 < ULONG
    requires Enabled(m, t, step) && !step.CallSignal? && !step.CallWait?
    ensures CallStep(m, t, Apply(m, t, step))
  {
    ReturningMoves(m, t, step);
  }

  function Advance(s: Sys, t: nat, m': Monitor): Sys
    requires t < |m'.pc|
  {
    if m'.pc[t] == Outside then AfterReturn(s.(mon := m'), t) else s.(mon := m')
  }

  lemma CallStepKeepsLinks(s: Sys, t: nat, m': Monitor)
    requires Linked(s) && CallStep(s.mon, t, m')
    ensures Linked(Advance(s, t, m'))
  {
  }

  lemma CallStepKeepsStages(s: Sys, t: nat, m': Monitor)
    requires Linked(s) && StagesInStep(s) && CallStep(s.mon, t, m')
    ensures StagesInStep(Advance(s, t, m'))
  {
  }

  lemma CallStepKeepsAccounts(s: Sys, t: nat, m': Monitor)
    requires Linked(s) && Accounts(s) && CallStep(s.mon, t, m')
    ensures Accounts(Advance(s, t, m'))
  {
    if t < s.Workers() { StagesMove(s.stage, t, CheckExit); }
  }

  /** Steps of the main thread outside Signal. */
  predicate ByMain(a: Action) {
    !a.InMonitor? && !a.BeginWait? && !a.ReadExit? && !a.PrintLine?
  }

  lemma MainStepKeepsLinks(s: Sys, a: Action)
    requires Linked(s) && StagesInStep(s) && Can(s, a) && ByMain(a)
    ensures Linked(Do(s, a)) && StagesInStep(Do(s, a))
  {
  }

  lemma MainStepKeepsAccounts(s: Sys, a: Action)
    requires Linked(s) && Accounts(s) && StagesInStep(s) && Can(s, a) && ByMain(a)
    ensures Accounts(Do(s, a))
  {
    match a
    case Spawn => StagesMove(s.stage, s.main.next, LoopHead);
    case BeginSend => TotalUpdate(s.mon.pc, s.Workers(), SignalLock, ReturningMark);
    case BeginRelease => TotalUpdate(s.mon.pc, s.Workers(), SignalLock, ReturningMark);
    case _ =>
  }

  lemma BeginWaitKeepsLinks(s: Sys, w: nat)
    requires Linked(s) && StagesInStep(s) && Can(s, BeginWait(w))
    ensures Linked(Do(s, BeginWait(w))) && StagesInStep(Do(s, BeginWait(w)))
  {
  }

  /** A worker outside Wait moves on to another stage outside Wait. */
  lemma StageChangeKeepsLinks(s: Sys, w: nat, to: Stage, printed: nat)
    requires Linked(s) && StagesInStep(s) && w < s.Workers()
    requires s.stage[w] == CheckExit || s.stage[w] == Printing
    requires to == LoopHead || to == Printing || (to == Exited && s.exitFlag)
    ensures var s' := s.(stage := s.stage[w := to], printed := printed); Linked(s') && StagesInStep(s')
  {
  }

  lemma WorkerStepKeepsLinks(s: Sys, a: Action)
    requires Linked(s) && StagesInStep(s) && Can(s, a) && !ByMain(a) && !a.InMonitor?
    ensures Linked(Do(s, a)) && StagesInStep(Do(s, a))
  {
    match a
    case BeginWait(w) => BeginWaitKeepsLinks(s, w);
    case ReadExit(w) => StageChangeKeepsLinks(s, w, if s.exitFlag then Exited else Printing, s.printed);
    case PrintLine(w) => StageChangeKeepsLinks(s, w, LoopHead, s.printed + 1);
  }

  lemma BeginWaitKeepsAccounts(s: Sys, w: nat)
    requires Linked(s) && Accounts(s) && Can(s, BeginWait(w))
    ensures Accounts(Do(s, BeginWait(w)))
  {
    StagesMove(s.stage, w, InWait);
    TotalUpdate(s.mon.pc, w, WaitLock, ReturningMark);
  }

  /** With the flag down, the testing worker's own token shows that fewer lines than work
      signals are out. */
  lemma ReadExitKeepsAccounts(s: Sys, w: nat)
    requires Linked(s) && Accounts(s) && Can(s, ReadExit(w))
    requires s.mon.taken <= s.mon.added
    ensures Accounts(Do(s, ReadExit(w)))
  {
    TotalAtLeast(s.stage, w, CheckingMark);
    StagesMove(s.stage, w, if s.exitFlag then Exited else Printing);
  }

  lemma PrintLineKeepsAccounts(s: Sys, w: nat)
    requires Linked(s) && Accounts(s) && Can(s, PrintLine(w))
    ensures Accounts(Do(s, PrintLine(w)))
  {
    StagesMove(s.stage, w, LoopHead);
  }

  lemma StepKeepsMonitor(s: Sys, a: Action)
    requires SemaphoreMonitor.Inv(0, s.mon) && Can(s, a)
    ensures SemaphoreMonitor.Inv(0, Do(s, a).mon)
  {
    match a
    case BeginSend => SemaphoreMonitor.StepKeepsInv(0, s.mon, s.Workers(), CallSignal);
    case BeginRelease => SemaphoreMonitor.StepKeepsInv(0, s.mon, s.Workers(), CallSignal);
    case BeginWait(w) => SemaphoreMonitor.StepKeepsInv(0, s.mon, w, CallWait);
    case InMonitor(t, step) => SemaphoreMonitor.StepKeepsInv(0, s.mon, t, step);
    case _ =>
  }

  lemma CallStepKeepsGood(s: Sys, t: nat, step: Step)
    requires Good(s) && FitsCounter(s) && Can(s, InMonitor(t, step))
    ensures Good(Do(s, InMonitor(t, step)))
  {
    var m' := Apply(s.mon, t, step);
    StepKeepsMonitor(s, InMonitor(t, step));
    assert s.mon.pc[t].SignalAdd? ==> t == s.Workers();
    StepInsideCall(s.mon, t, step);
    CallStepKeepsLinks(s, t, m');
    CallStepKeepsStages(s, t, m');
    CallStepKeepsAccounts(s, t, m');
    assert Do(s, InMonitor(t, step)) == Advance(s, t, m');
  }

  lemma WorkerStepKeepsAccounts(s: Sys, a: Action)
    requires Good(s) && Can(s, a) && !ByMain(a) && !a.InMonitor?
    ensures Accounts(Do(s, a))
  {
    match a
    case BeginWait(w) => BeginWaitKeepsAccounts(s, w);
    case ReadExit(w) => ReadExitKeepsAccounts(s, w);
    case PrintLine(w) => PrintLineKeepsAccounts(s, w);
  }

  lemma MainStepKeepsGood(s: Sys, a: Action)
    requires Good(s) && Can(s, a) && ByMain(a)
    ensures Good(Do(s, a))
  {
    StepKeepsMonitor(s, a);
    MainStepKeepsLinks(s, a);
    MainStepKeepsAccounts(s, a);
  }

  lemma WorkerStepKeepsGood(s: Sys, a: Action)
    requires Good(s) && Can(s, a) && !ByMain(a) && !a.InMonitor?
    ensures Good(Do(s, a))
  {
    StepKeepsMonitor(s, a);
    WorkerStepKeepsLinks(s, a);
    WorkerStepKeepsAccounts(s, a);
  }

  lemma StepKeepsGood(s: Sys, a: Action)
    requires Good(s) && FitsCounter(s) && Can(s, a)
    ensures Good(Do(s, a)) && FitsCounter(Do(s, a))
  {
    if a.InMonitor? {
      CallStepKeepsGood(s, a.t, a.step);
    } else if ByMain(a) {
      MainStepKeepsGood(s, a);
    } else {
      WorkerStepKeepsGood(s, a);
    }
  }

  lemma {:induction false} RunKeepsGood(s: Sys, schedule: seq<Action>, s': Sys)
    requires Good(s) && FitsCounter(s) && Runs(s, schedule, s')
    ensures Good(s') && FitsCounter(s')
    decreases schedule
  {
    if schedule == [] {
    } else {
      StepKeepsGood(s, schedule[0]);
      RunKeepsGood(Do(s, schedule[0]), schedule[1..], s');
    }
  }

  // ----- no reachable state is stuck before the workers are joined -----

  predicate IsSpurious(a: Action) { a.InMonitor? && a.step.Spurious? }

  /** The thread that holds the mutex can always go on. */
  function HolderMove(s: Sys): (a: Action)
    requires Good(s) && s.mon.owner.Some?
    ensures Can(s, a) && !IsSpurious(a)
  {
    var t := s.mon.owner.value;
    assert Holds(s.mon.pc[t]);
    InMonitor(t, match s.mon.pc[t]
                 case SignalAdd => Add
                 case WaitTake => Take
                 case SignalUnlock => Release
                 case WaitUnlock => Release
                 case _ => Test)
  }

  /** With the mutex free, a main thread inside Signal can go on. */
  function SignalMove(s: Sys): (a: Action)
    requires Good(s) && s.mon.owner == None && (s.main.InSend? || s.main.InRelease?)
    ensures Can(s, a) && !IsSpurious(a)
  {
    var t := s.Workers();
    assert !Holds(s.mon.pc[t]);
    InMonitor(t, if s.mon.pc[t] == SignalLock then Acquire else Notify(SomeParked(s.mon.pc, 0)))
  }

  predicate WaitsToJoin(s: Sys) {
    s.main.Joining? && s.main.next < s.Workers() && s.stage[s.main.next] != Exited
  }

  /** With the mutex free, a main thread that does not wait in a join can go on. */
  function MainMove(s: Sys): (a: Action)
    requires Good(s) && s.mon.owner == None && !s.main.Finished? && !WaitsToJoin(s)
    ensures Can(s, a) && !IsSpurious(a)
  {
    match s.main
    case Spawning(k) => if k < s.Workers() then Spawn else SpawnDone
    case Sending(k) => if k < s.jobs then BeginSend else SendsDone
    case RaisingExit => RaiseExit
    case Releasing(k) => if k < s.Workers() then BeginRelease else ReleasesDone
    case Joining(k) => if k < s.Workers() then Join else JoinsDone
    case InSend(_) => SignalMove(s)
    case InRelease(_) => SignalMove(s)
  }

  predicate WorkerReady(s: Sys, w: nat)
    requires w < s.Workers() && |s.mon.pc| == s.Workers() + 1
  {
    s.stage[w] != Unborn && s.stage[w] != Exited && s.mon.pc[w] != Parked
  }

  /** With the mutex free, a born worker that is neither parked nor gone can go on. */
  function WorkerMove(s: Sys, w: nat): (a: Action)
    requires Good(s) && s.mon.owner == None && w < s.Workers() && WorkerReady(s, w)
    ensures Can(s, a) && !IsSpurious(a)
  {
    match s.stage[w]
    case LoopHead => BeginWait(w)
    case CheckExit => ReadExit(w)
    case Printing => PrintLine(w)
    case InWait =>
      assert !Holds(s.mon.pc[w]);
      InMonitor(w, Acquire)
  }

  /** The first worker from `from` on that can go on, or the number of workers. */
  function FirstReady(s: Sys, from: nat): (w: nat)
    requires |s.mon.pc| == s.Workers() + 1 && from <= s.Workers()
    ensures from <= w <= s.Workers()
    ensures w < s.Workers() ==> WorkerReady(s, w)
    ensures w == s.Workers() ==> forall v :: from <= v < s.Workers() ==> !WorkerReady(s, v)
    decreases s.Workers() - from
  {
    if from == s.Workers() || WorkerReady(s, from) then from else FirstReady(s, from + 1)
  }

  lemma QuietTotals(pc: seq<Pc>)
    requires forall t :: 0 <= t < |pc| ==> pc[t].Parked? || pc[t].Outside?
    ensures Total(pc, WokenMark) == Total(pc, NotifyingMark) == Total(pc, TakingMark) == 0
    ensures Total(pc, ReturningMark) == 0
  {
    TotalZero(pc, WokenMark);
    TotalZero(pc, NotifyingMark);
    TotalZero(pc, TakingMark);
    TotalZero(pc, ReturningMark);
  }

  /** With main in its join loop, all workers parked or gone means all workers gone: a parked
      one would still be owed a token that no thread is about to hand out. */
  lemma QuietMeansNobodyParked(s: Sys)
    requires WakeupsCovered(s.mon) && Linked(s) && Accounts(s) && s.main.Joining?
    requires forall v :: 0 <= v < s.Workers() ==> s.stage[v] == Exited || s.mon.pc[v] == Parked
    ensures NobodyParked(s.mon.pc)
  {
    if w :| 0 <= w < |s.mon.pc| && s.mon.pc[w] == Parked {
      QuietTotals(s.mon.pc);
      TotalZero(s.stage, CheckingMark);
      TotalAtLeast(s.mon.pc, w, ParkedMark);
      TotalOfMarks(s.stage, ExitedMark);
      assert false;
    }
  }

  /** While main waits in a join with the mutex free, some worker can go on. */
  lemma SomeWorkerReady(s: Sys)
    requires Good(s) && s.mon.owner == None && WaitsToJoin(s)
    ensures FirstReady(s, 0) < s.Workers()
  {
    if FirstReady(s, 0) == s.Workers() {
      forall v | 0 <= v < s.Workers()
        ensures s.stage[v] == Exited || s.mon.pc[v] == Parked
      {
        assert !WorkerReady(s, v);
      }
      QuietMeansNobodyParked(s);
      assert false;
    }
  }

  /** Until the last join has returned, some step other than a spurious wake-up is enabled. */
  function NextAction(s: Sys): (a: Action)
    requires Good(s) && !s.main.Finished?
    ensures Can(s, a) && !IsSpurious(a)
  {
    if s.mon.owner.Some? then HolderMove(s)
    else if !WaitsToJoin(s) then MainMove(s)
    else
      SomeWorkerReady(s);
      WorkerMove(s, FirstReady(s, 0))
  }

  // ----- how long a run can be -----

  function PcWeight(pc: Pc): nat {
    match pc
    case Outside => 0
    case SignalLock => 14
    case SignalAdd => 13
    case SignalUnlock => 5
    case SignalNotify => 4
    case WaitLock => 3
    case WaitTest => 2
    case Parked => 0
    case Woken => 3
    case WokenTest => 2
    case WaitTake => 1
    case WaitUnlock => 7
  }

  function StageWeight(g: Stage): nat {
    match g
    case Unborn => 4
    case LoopHead => 4
    case InWait => 0
    case CheckExit => 6
    case Printing => 5
    case Exited => 0
  }

  function MainWeight(s: Sys): int {
    var workers, jobs := s.Workers(), s.jobs;
    match s.main
    case Spawning(k) => 17 * workers + 15 * jobs + 5 - k
    case Sending(k) => 16 * workers + 15 * (jobs - k) + 4
    case InSend(k) => 16 * workers + 15 * (jobs - k - 1) + 4
    case RaisingExit => 16 * workers + 3
    case Releasing(k) => 15 * (workers - k) + workers + 2
    case InRelease(k) => 15 * (workers - k - 1) + workers + 2
    case Joining(k) => workers - k + 1
    case Finished => 0
  }

  /** Pending work: what main has still to do, what each thread can do before it needs a new
      token or a wake-up, and what each token in the semaphore can still set off. */
  function Measure(s: Sys): int {
    MainWeight(s) + MonitorWeight(s.mon) + Total(s.stage, StageWeight)
  }

  function SpuriousWakeups(schedule: seq<Action>): nat {
    if schedule == [] then 0
    else (if IsSpurious(schedule[0]) then 1 else 0) + SpuriousWakeups(schedule[1..])
  }

  /** What the tokens and the threads inside the monitor can still set off. */
  function MonitorWeight(m: Monitor): nat {
    7 * m.count + Total(m.pc, PcWeight)
  }

  lemma NotifyWeight(m: Monitor, t: nat, target: Option<nat>)
    requires Enabled(m, t, Notify(target))
    ensures MonitorWeight(Apply(m, t, Notify(target))) < MonitorWeight(m)
  {
    match target
    case None => TotalUpdate(m.pc, t, Outside, PcWeight);
    case Some(u) =>
      TotalUpdate(m.pc, u, Woken, PcWeight);
      TotalUpdate(m.pc[u := Woken], t, Outside, PcWeight);
  }

  lemma CallStepWeight(m: Monitor, t: nat, step: Step)
    requires TakersHaveTokens(m) && (m.count + 1 < ULONG || !step.Add?)
    requires Enabled(m, t, step) && !step.CallSignal? && !step.CallWait?
    ensures MonitorWeight(Apply(m, t, step)) + 1 + (if m.pc[t].WaitUnlock? then 6 else 0)
         <= MonitorWeight(m) + (if step.Spurious? then 4 else 0)
  {
    if step.Notify? {
      NotifyWeight(m, t, step.target);
    } else {
      var to := Apply(m, t, step).pc[t];
      TotalUpdate(m.pc, t, to, PcWeight);
      assert Apply(m, t, step).pc == m.pc[t := to];
    }
  }

  lemma MainStepWeight(s: Sys, a: Action)
    requires Linked(s) && StagesInStep(s) && Can(s, a) && ByMain(a)
    ensures Measure(Do(s, a)) < Measure(s)
  {
    match a
    case Spawn => TotalUpdate(s.stage, s.main.next, LoopHead, StageWeight);
    case BeginSend => TotalUpdate(s.mon.pc, s.Workers(), SignalLock, PcWeight);
    case BeginRelease => TotalUpdate(s.mon.pc, s.Workers(), SignalLock, PcWeight);
    case _ =>
  }

  lemma WorkerStepWeight(s: Sys, a: Action)
    requires Linked(s) && Can(s, a) && !ByMain(a) && !a.InMonitor?
    ensures Measure(Do(s, a)) < Measure(s)
  {
    match a
    case BeginWait(w) =>
      TotalUpdate(s.mon.pc, w, WaitLock, PcWeight);
      TotalUpdate(s.stage, w, InWait, StageWeight);
    case ReadExit(w) => TotalUpdate(s.stage, w, if s.exitFlag then Exited else Printing, StageWeight);
    case PrintLine(w) => TotalUpdate(s.stage, w, LoopHead, StageWeight);
  }

  /** Behind a call of Wait the worker has its exit test before it, behind a call of Signal
      main has what it had before it inside. */
  lemma ReturnWeight(s: Sys, t: nat)
    requires t <= s.Workers()
    ensures MainWeight(AfterReturn(s, t)) == MainWeight(s) && AfterReturn(s, t).mon == s.mon
    ensures Total(AfterReturn(s, t).stage, StageWeight)
         <= Total(s.stage, StageWeight) + (if t < s.Workers() then 6 else 0)
  {
    if t < s.Workers() { TotalUpdate(s.stage, t, CheckExit, StageWeight); }
  }

  lemma AdvanceWeight(s: Sys, t: nat, m': Monitor, gain: nat)
    requires t < |m'.pc| == s.Workers() + 1
    requires MonitorWeight(m') + 1 + (if t < s.Workers() && m'.pc[t].Outside? then 6 else 0)
          <= MonitorWeight(s.mon) + gain
    ensures Measure(Advance(s, t, m')) + 1 <= Measure(s) + gain
  {
    ReturnWeight(s.(mon := m'), t);
  }

  lemma InMonitorWeight(s: Sys, t: nat, step: Step)
    requires Good(s) && FitsCounter(s) && Can(s, InMonitor(t, step))
    ensures Measure(Do(s, InMonitor(t, step))) + 1 <= Measure(s) + (if step.Spurious? then 4 else 0)
  {
    var m' := Apply(s.mon, t, step);
    CallStepWeight(s.mon, t, step);
    assert t < s.Workers() && m'.pc[t].Outside? ==> s.mon.pc[t].WaitUnlock?;
    AdvanceWeight(s, t, m', if step.Spurious? then 4 else 0);
  }

  /** Every step but a spurious wake-up uses up some of the measure. */
  lemma StepWeight(s: Sys, a: Action)
    requires Good(s) && FitsCounter(s) && Can(s, a)
    ensures Measure(Do(s, a)) + 1 <= Measure(s) + (if IsSpurious(a) then 4 else 0)
  {
    if ByMain(a) {
      MainStepWeight(s, a);
    } else if a.InMonitor? {
      InMonitorWeight(s, a.t, a.step);
    } else {
      WorkerStepWeight(s, a);
    }
  }

  lemma MeasureNonNegative(s: Sys)
    requires Good(s)
    ensures Measure(s) >= 0
  {
  }

  lemma {:induction false} RunWeight(s: Sys, schedule: seq<Action>, s': Sys)
    requires Good(s) && FitsCounter(s) && Runs(s, schedule, s')
    ensures Measure(s') + |schedule| <= Measure(s) + 4 * SpuriousWakeups(schedule)
    decreases schedule
  {
    if schedule == [] {
    } else {
      StepWeight(s, schedule[0]);
      StepKeepsGood(s, schedule[0]);
      RunWeight(Do(s, schedule[0]), schedule[1..], s');
    }
  }

  // ----- theorems over every run of the program -----

  /** For any numbers of workers and work signals: work lines never outnumber work signals, and
      once the exit flag is up the tokens there are and the exit signals to come suffice for
      every worker that must still pass Wait. */
  lemma ExitTokensSuffice(workers: nat, jobs: nat, schedule: seq<Action>, s: Sys)
    requires workers + jobs < 0x1_0000_0000_0000_0000 && Runs(Start(workers, jobs), schedule, s)
    ensures s.printed <= jobs
    ensures |s.mon.pc| == workers + 1
    ensures s.exitFlag ==> s.mon.count + (jobs + workers - s.mon.added) >= workers - Past(s)
  {
    StartGood(workers, jobs);
    RunKeepsGood(Start(workers, jobs), schedule, s);
    SameProgram(Start(workers, jobs), schedule, s);
  }

  lemma {:induction false} SameProgram(s: Sys, schedule: seq<Action>, s': Sys)
    requires Runs(s, schedule, s')
    ensures s'.Workers() == s.Workers() && s'.jobs == s.jobs
    decreases schedule
  {
    if schedule == [] {
    } else {
      SameProgram(Do(s, schedule[0]), schedule[1..], s');
    }
  }

  lemma FinishedIsFinal(s: Sys, a: Action)
    requires Linked(s) && StagesInStep(s) && s.main.Finished?
    ensures !Can(s, a)
  {
  }

  lemma FinishedAccounts(s: Sys)
    requires Good(s) && FitsCounter(s) && s.main.Finished?
    ensures s.mon.taken == s.printed + s.Workers()
    ensures s.mon.count + s.printed == s.jobs
  {
    TotalZero(s.stage, CheckingMark);
    TotalZero(s.stage, PrintingMark);
    TotalZero(s.mon.pc, ReturningMark);
    TotalOfMarks(s.stage, ExitedMark);
  }

  /** A run ends where no step but a spurious wake-up is left, and there main has joined all the
      workers; the tokens left over are exactly the work signals that were not printed. */
  lemma ShutdownReleasesEveryone(workers: nat, jobs: nat, schedule: seq<Action>, s: Sys)
    requires workers + jobs < 0x1_0000_0000_0000_0000 && Runs(Start(workers, jobs), schedule, s)
    ensures s.main.Finished? <==> forall a: Action :: Can(s, a) ==> IsSpurious(a)
    ensures s.main.Finished? ==> forall a: Action :: !Can(s, a)
    ensures s.main.Finished? ==>
              && |s.stage| == workers
              && (forall w :: 0 <= w < workers ==> s.stage[w] == Exited)
              && s.mon.taken == s.printed + workers
              && s.mon.count + s.printed == jobs
  {
    StartGood(workers, jobs);
    RunKeepsGood(Start(workers, jobs), schedule, s);
    SameProgram(Start(workers, jobs), schedule, s);
    if s.main.Finished? {
      FinishedAccounts(s);
      forall a: Action ensures !Can(s, a) { FinishedIsFinal(s, a); }
    } else {
      var a := NextAction(s);
      assert Can(s, a) && !IsSpurious(a);
    }
  }

  /** Runs are finite but for spurious wake-ups: at most 21 T + 15 M + 5 steps, and four more
      for each of those. */
  lemma RunsAreBounded(workers: nat, jobs: nat, schedule: seq<Action>, s: Sys)
    requires workers + jobs < 0x1_0000_0000_0000_0000 && Runs(Start(workers, jobs), schedule, s)
    ensures |schedule| <= 21 * workers + 15 * jobs + 5 + 4 * SpuriousWakeups(schedule)
  {
    var s0 := Start(workers, jobs);
    StartGood(workers, jobs);
    RunWeight(s0, schedule, s);
    RunKeepsGood(s0, schedule, s);
    MeasureNonNegative(s);
    TotalOfEqual(s0.stage, StageWeight, 4);
    TotalZero(s0.mon.pc, PcWeight);
  }

  /** A parked worker's spurious wake-up, up to parking again. */
  function WakeInVain(w: nat, times: nat): seq<Action> {
    if times == 0 then []
    else [InMonitor(w, Spurious), InMonitor(w, Acquire), InMonitor(w, Test)] + WakeInVain(w, times - 1)
  }

  lemma WakesInVain(s: Sys, w: nat)
    requires Linked(s) && w < s.Workers() && s.mon.pc[w] == Parked && s.mon.owner == None && s.mon.count == 0
    ensures Can(s, InMonitor(w, Spurious))
    ensures var s1 := Do(s, InMonitor(w, Spurious)); Can(s1, InMonitor(w, Acquire))
    ensures var s2 := Do(Do(s, InMonitor(w, Spurious)), InMonitor(w, Acquire));
            Can(s2, InMonitor(w, Test)) && Do(s2, InMonitor(w, Test)) == s
  {
    var s2 := Do(Do(s, InMonitor(w, Spurious)), InMonitor(w, Acquire));
    assert Do(s2, InMonitor(w, Test)).mon.pc == s.mon.pc;
  }

  lemma RunsAfter(s: Sys, a: Action, rest: seq<Action>, s': Sys)
    requires Can(s, a) && Runs(Do(s, a), rest, s')
    ensures Runs(s, [a] + rest, s')
    ensures SpuriousWakeups([a] + rest) == (if IsSpurious(a) then 1 else 0) + SpuriousWakeups(rest)
  {
    assert ([a] + rest)[1..] == rest;
  }

  lemma RunsThreeMore(
    s: Sys, a: Action, s1: Sys, b: Action, s2: Sys, c: Action, s3: Sys, rest: seq<Action>, s': Sys
  )
    requires Can(s, a) && Do(s, a) == s1 && Can(s1, b) && Do(s1, b) == s2 && Can(s2, c) && Do(s2, c) == s3
    requires IsSpurious(a) && !IsSpurious(b) && !IsSpurious(c)
    requires Runs(s3, rest, s')
    ensures Runs(s, [a, b, c] + rest, s')
    ensures SpuriousWakeups([a, b, c] + rest) == 1 + SpuriousWakeups(rest)
  {
    RunsAfter(s2, c, rest, s');
    RunsAfter(s1, b, [c] + rest, s');
    RunsAfter(s, a, [b] + ([c] + rest), s');
    assert [a, b, c] + rest == [a] + ([b] + ([c] + rest));
  }

  /** Without a bound on spurious wake-ups there is none on the length of a run: while there is no
      token a parked worker may wake up any number of times and park again, and nothing changes. */
  lemma {:induction false} SpuriousWakeupsAreFree(s: Sys, w: nat, times: nat)
    requires Linked(s) && w < s.Workers() && s.mon.pc[w] == Parked && s.mon.owner == None && s.mon.count == 0
    ensures Runs(s, WakeInVain(w, times), s)
    ensures |WakeInVain(w, times)| == 3 * times && SpuriousWakeups(WakeInVain(w, times)) == times
  {
    if times == 0 {
    } else {
      var rest := WakeInVain(w, times - 1);
      SpuriousWakeupsAreFree(s, w, times - 1);
      WakesInVain(s, w);
      var a, b, c := InMonitor(w, Spurious), InMonitor(w, Acquire), InMonitor(w, Test);
      var s1 := Do(s, a);
      RunsThreeMore(s, a, s1, b, Do(s1, b), c, s, rest, s);
      assert WakeInVain(w, times) == [a, b, c] + rest;
    }
  }

  lemma {:induction false} FinishFrom(s: Sys) returns (schedule: seq<Action>, s': Sys)
    requires Good(s) && FitsCounter(s)
    ensures Runs(s, schedule, s') && s'.main.Finished? && SpuriousWakeups(schedule) == 0
    decreases Measure(s)
  {
    MeasureNonNegative(s);
    if s.main.Finished? {
      schedule, s' := [], s;
    } else {
      var a := NextAction(s);
      StepKeepsGood(s, a);
      StepWeight(s, a);
      MeasureNonNegative(Do(s, a));
      var rest, end := FinishFrom(Do(s, a));
      schedule, s' := [a] + rest, end;
      assert schedule[1..] == rest;
    }
  }

  /** Whatever has happened so far, main can still get through its last join. */
  lemma CanAlwaysFinish(workers: nat, jobs: nat, schedule: seq<Action>, s: Sys)
    requires workers + jobs < 0x1_0000_0000_0000_0000 && Runs(Start(workers, jobs), schedule, s)
    ensures exists rest, end ::
              Runs(s, rest, end) && end.main.Finished? && SpuriousWakeups(rest) == 0
  {
    StartGood(workers, jobs);
    RunKeepsGood(Start(workers, jobs), schedule, s);
    var rest, end := FinishFrom(s);
  }

  // ----- the running program -----

  lemma JoinKeepsGood(s: Sys)
    requires Good(s) && FitsCounter(s) && s.main.Joining?
    requires s.main.next < s.Workers() ==> s.stage[s.main.next] == Exited
    ensures s.main.next < s.Workers() ==>
              Do(s, Join) == s.(main := Joining(s.main.next + 1)) && Good(Do(s, Join))
    ensures s.main.next >= s.Workers() ==>
              && Do(s, JoinsDone) == s.(main := Finished) && Good(Do(s, JoinsDone))
              && s.mon.count + s.printed == s.jobs
  {
    if s.main.next < s.Workers() {
      StepKeepsGood(s, Join);
    } else {
      StepKeepsGood(s, JoinsDone);
      FinishedAccounts(Do(s, JoinsDone));
    }
  }

  function AfterSignal(main: MainPc): MainPc {
    match main
    case InSend(k) => Sending(k + 1)
    case InRelease(k) => Releasing(k + 1)
    case _ => main
  }

  /** A step inside a call that does not end it touches nothing but the semaphore. */
  lemma InCallStays(s: Sys, t: nat, step: Step)
    requires Good(s) && FitsCounter(s) && Can(s, InMonitor(t, step)) && !step.Notify?
    requires s.mon.pc[t] != WaitUnlock
    ensures var s' := s.(mon := Apply(s.mon, t, step)); Do(s, InMonitor(t, step)) == s' && Good(s')
  {
    StepKeepsGood(s, InMonitor(t, step));
  }

  lemma OnlyMainSignals(s: Sys, t: nat)
    requires Linked(s) && t < |s.mon.pc| && InSignal(s.mon.pc[t])
    ensures t == s.Workers()
  {
  }

  lemma NotifyReturns(s: Sys, woken: Option<nat>)
    requires Good(s) && FitsCounter(s) && Can(s, InMonitor(s.Workers(), Notify(woken)))
    ensures var s' := s.(mon := Apply(s.mon, s.Workers(), Notify(woken)), main := AfterSignal(s.main));
            Do(s, InMonitor(s.Workers(), Notify(woken))) == s' && Good(s')
  {
    StepKeepsGood(s, InMonitor(s.Workers(), Notify(woken)));
  }

  /** The running program: the main thread's and the workers' positions, the flag, and the
      semaphore they share. */
  class Process {
    const cnd: Semaphore
    const jobs: nat
    var main: MainPc
    var stage: seq<Stage>
    var exitFlag: bool
    var printed: nat

    function View(): Sys
      reads this, cnd
    {
      Sys(jobs, cnd.View(), main, stage, exitFlag, printed)
    }

    ghost predicate Valid()
      reads this, cnd
    {
      cnd.initial == 0 && Good(View()) && FitsCounter(View())
    }

    constructor (workers: nat, jobs: nat)
      requires workers + jobs < 0x1_0000_0000_0000_0000
      ensures Valid() && fresh(cnd) && View() == Start(workers, jobs)
    {
      cnd := new Semaphore(0, workers + 1);
      this.jobs := jobs;
      main := Spawning(0);
      stage := seq(workers, _ => Unborn);
      exitFlag, printed := false, 0;
      new;
      StartGood(workers, jobs);
    }

    /** The thread creation loop: one more worker, or on to the work loop. */
    method SpawnNext()
      requires Valid() && main.Spawning?
      modifies this
      ensures Valid()
      ensures View() == Do(old(View()), if old(main).next < |old(stage)| then Spawn else SpawnDone)
      ensures main == if old(main).next < |old(stage)| then Spawning(old(main).next + 1) else Sending(0)
      ensures stage == if old(main).next < |old(stage)| then old(stage)[old(main).next := LoopHead] else old(stage)
    {
      ghost var was := View();
      if main.next < |stage| {
        stage := stage[main.next := LoopHead];
        main := Spawning(main.next + 1);
        StepKeepsGood(was, Spawn);
      } else {
        main := Sending(0);
        StepKeepsGood(was, SpawnDone);
      }
    }

    /** The work loop and the exit loop: one more call of Signal, or on to what follows. */
    method SignalNext()
      requires Valid() && (main.Sending? || main.Releasing?)
      modifies this, cnd
      ensures Valid()
      ensures View() == Do(old(View()),
                           if old(main).Sending? then (if old(main).sent < jobs then BeginSend else SendsDone)
                           else (if old(main).sent < |old(stage)| then BeginRelease else ReleasesDone))
      ensures main == if old(main).Sending? then (if old(main).sent < jobs then InSend(old(main).sent) else RaisingExit)
                      else (if old(main).sent < |stage| then InRelease(old(main).sent) else Joining(0))
    {
      ghost var was := View();
      if main.Sending? {
        if main.sent < jobs {
          cnd.EnterSignal(|stage|);
          main := InSend(main.sent);
          StepKeepsGood(was, BeginSend);
        } else {
          main := RaisingExit;
          StepKeepsGood(was, SendsDone);
        }
      } else if main.sent < |stage| {
        cnd.EnterSignal(|stage|);
        main := InRelease(main.sent);
        StepKeepsGood(was, BeginRelease);
      } else {
        main := Joining(0);
        StepKeepsGood(was, ReleasesDone);
      }
    }

    method RaiseExitFlag()
      requires Valid() && main.RaisingExit?
      modifies this
      ensures Valid() && View() == Do(old(View()), RaiseExit) && exitFlag
      ensures main == Releasing(0)
    {
      ghost var was := View();
      exitFlag := true;
      main := Releasing(0);
      StepKeepsGood(was, RaiseExit);
    }

    /** The join loop; joining a worker blocks until it has exited. */
    method JoinNext()
      requires Valid() && main.Joining? && (main.next < |stage| ==> stage[main.next] == Exited)
      modifies this
      ensures Valid() && View() == Do(old(View()), if old(main).next < |stage| then Join else JoinsDone)
      ensures main.Finished? ==> cnd.count + printed == jobs
      ensures main == if old(main).next < |stage| then Joining(old(main).next + 1) else Finished
    {
      JoinKeepsGood(View());
      if main.next < |stage| {
        main := Joining(main.next + 1);
      } else {
        main := Finished;
      }
    }

    /** A step inside a call that does not end it. */
    method StepInCall(t: nat, step: Step)
      requires Valid() && Can(View(), InMonitor(t, step)) && !step.Notify? && cnd.pc[t] != WaitUnlock
      modifies this, cnd
      ensures Valid() && Can(old(View()), InMonitor(t, step))
      ensures View() == Do(old(View()), InMonitor(t, step))
    {
      InCallStays(View(), t, step);
      StepSemaphore(t, step);
    }

    method StepSemaphore(t: nat, step: Step)
      requires cnd.Valid() && Enabled(cnd.View(), t, step)
      requires !step.CallSignal? && !step.CallWait? && !step.Notify?
      modifies cnd
      ensures cnd.View() == Apply(old(cnd.View()), t, step)
    {
      match step
      case Acquire => cnd.LockMutex(t);
      case Add => cnd.Increment(t);
      case Release => cnd.UnlockMutex(t);
      case Test => var _ := cnd.TestCount(t);
      case Take => cnd.Decrement(t);
      case Spurious => cnd.SpuriousWakeup(t);
    }

    /** The last step of a call of Signal by main. */
    method NotifyAndReturn(target: Option<nat>)
      requires Valid() && Can(View(), InMonitor(|stage|, Notify(target)))
      modifies this, cnd
      ensures Valid() && Can(old(View()), InMonitor(|old(stage)|, Notify(target)))
      ensures View() == Do(old(View()), InMonitor(|old(stage)|, Notify(target)))
    {
      ghost var was := View();
      cnd.Wake(|stage|, target);
      main := AfterSignal(main);
      NotifyReturns(was, target);
    }

    /** The last step of a call of Wait by worker `w`. */
    method UnlockAndReturn(w: nat)
      requires Valid() && w < |cnd.pc| && cnd.pc[w] == WaitUnlock
      modifies this, cnd
      ensures Valid() && Can(old(View()), InMonitor(w, Release))
      ensures View() == Do(old(View()), InMonitor(w, Release))
      ensures stage == old(stage)[w := CheckExit]
    {
      ghost var was := View();
      cnd.UnlockMutex(w);
      stage := stage[w := CheckExit];
      StepKeepsGood(was, InMonitor(w, Release));
    }

    method EnterWait(w: nat)
      requires Valid() && w < |stage| && stage[w] == LoopHead
      modifies this, cnd
      ensures Valid() && View() == Do(old(View()), BeginWait(w))
      ensures stage == old(stage)[w := InWait] && cnd.pc[w] == WaitLock
    {
      ghost var was := View();
      cnd.EnterWait(w);
      stage := stage[w := InWait];
      StepKeepsGood(was, BeginWait(w));
    }

    /** Behind Wait: leave the loop if the flag is up, otherwise go and print. */
    method TestExitFlag(w: nat) returns (leave: bool)
      requires Valid() && w < |stage| && stage[w] == CheckExit
      modifies this
      ensures Valid() && View() == Do(old(View()), ReadExit(w))
      ensures leave == exitFlag
      ensures !leave ==> printed < jobs
      ensures stage == old(stage)[w := if leave then Exited else Printing]
    {
      ghost var was := View();
      leave := exitFlag;
      stage := stage[w := if leave then Exited else Printing];
      StepKeepsGood(was, ReadExit(w));
      TotalAtLeast(stage, w, PrintingMark);
    }

    method PrintWorkLine(w: nat)
      requires Valid() && w < |stage| && stage[w] == Printing
      modifies this
      ensures Valid() && View() == Do(old(View()), PrintLine(w)) && printed <= jobs
      ensures printed == old(printed) + 1 && stage == old(stage)[w := LoopHead]
    {
      ghost var was := View();
      printed := printed + 1;
      stage := stage[w := LoopHead];
      StepKeepsGood(was, PrintLine(w));
    }

    method PerformByMain(a: Action)
      requires Valid() && Can(View(), a) && ByMain(a)
      modifies this, cnd
      ensures Valid() && Can(old(View()), a) && View() == Do(old(View()), a)
    {
      match a
      case Spawn => SpawnNext();
      case SpawnDone => SpawnNext();
      case RaiseExit => RaiseExitFlag();
      case Join => JoinNext();
      case JoinsDone => JoinNext();
      case BeginSend | SendsDone | BeginRelease | ReleasesDone => SignalNext();
    }

    method PerformInMonitor(t: nat, step: Step)
      requires Valid() && Can(View(), InMonitor(t, step))
      modifies this, cnd
      ensures Valid() && Can(old(View()), InMonitor(t, step))
      ensures View() == Do(old(View()), InMonitor(t, step))
    {
      if step.Notify? {
        OnlyMainSignals(View(), t);
        assert step == Notify(step.target) && t == |stage|;
        NotifyAndReturn(step.target);
      } else if cnd.pc[t] == WaitUnlock {
        assert step == Release;
        UnlockAndReturn(t);
      } else {
        StepInCall(t, step);
      }
    }

    /** Any step of the program, by any thread. */
    method Perform(a: Action)
      requires Valid() && Can(View(), a)
      modifies this, cnd
      ensures Valid() && Can(old(View()), a) && View() == Do(old(View()), a)
    {
      if ByMain(a) {
        PerformByMain(a);
      } else {
        match a
        case BeginWait(w) => EnterWait(w);
        case ReadExit(w) => var _ := TestExitFlag(w);
        case PrintLine(w) => PrintWorkLine(w);
        case InMonitor(t, step) => PerformInMonitor(t, step);
      }
    }

    /** Some thread after the other until main is through: no wait is ever in vain. */
    method RunToEnd()
      requires Valid()
      modifies this, cnd
      ensures Valid() && main.Finished? && cnd.count + printed == jobs
      ensures forall w :: 0 <= w < |stage| ==> stage[w] == Exited
    {
      while !main.Finished?
        invariant Valid()
        decreases Measure(View())
      {
        var a := NextAction(View());
        StepWeight(View(), a);
        Perform(a);
        MeasureNonNegative(View());
      }
      FinishedAccounts(View());
    }
  }
}
