/** The process supervisor of Socket&Http/honorguard.cpp: it restarts children that exit with
    status 0, drops those that fail, and on SIGTERM kills all and waits for them. Each signal
    handler runs without being interrupted by another. */
module Supervisor {

  type Pid = int
  type Path = string
  type Childs = map<Pid, Path>

  /** `waitCount` is an unsigned 32-bit counter: it wraps. */
  function Mod32(n: int): (r: nat) {
    n % 0x1_0000_0000
  }

  /** What fork returns when it fails; BecomeEternal records that as if it were a child. */
  const FORK_FAILED: Pid := -1

  /** The exit status of a child whose exec failed: -10 as an unsigned byte. */
  const EXEC_FAILED: nat := 246

  /** One child returned by wait, its exit status, and what fork returns if it is restarted. */
  datatype Reap = Reap(child: Pid, status: nat, forked: Pid)

  /** `running` are the children that wait has not returned yet; `surplus` records by how much
      SIGTERM has counted more than there is to reap: children it counted again after the first
      time it counted any, less those that were only started after that; `gone` is exit(0) in a handler. */
  datatype State = State(childs: Childs, bexit: bool, waitCount: nat, gone: bool,
                         running: set<Pid>, surplus: int)

  const INITIAL: State := State(map[], false, 0, false, {}, 0)

  datatype Event = Start(path: Path, forked: Pid) | SigChld(reaps: seq<Reap>) | SigTerm

  function Fork(s: State, path: Path, forked: Pid): State {
    s.(childs := s.childs[forked := path],
       running := if forked == FORK_FAILED then s.running else s.running + {forked},
       surplus := if s.bexit && forked !in s.childs then s.surplus - 1 else s.surplus)
  }

  /** The path on record, or the empty one that looking it up would create. */
  function Recorded(s: State, child: Pid): Path {
    if child in s.childs then s.childs[child] else ""
  }

  predicate Restarts(s: State, r: Reap) {
    !s.bexit && r.status == 0 && Recorded(s, r.child) != ""
  }

  predicate GivesUp(s: State, r: Reap) {
    !s.bexit && !Restarts(s, r) && r.status == EXEC_FAILED
  }

  function Forget(s: State, child: Pid): State {
    s.(childs := s.childs - {child}, running := s.running - {child})
  }

  /** The unsigned counter minus one. */
  function Decrement(count: nat): nat {
    if count == 0 then 0xFFFF_FFFF else count - 1
  }

  /** One turn of the reap loop. */
  function ReapOne(s: State, r: Reap): State {
    if GivesUp(s, r) then s.(gone := true, running := s.running - {r.child})
    else if Restarts(s, r) then Forget(Fork(s, s.childs[r.child], r.forked), r.child)
    else if s.bexit then Forget(s.(waitCount := Decrement(s.waitCount)), r.child)
    else Forget(s, r.child)
  }

  function ReapAll(s: State, reaps: seq<Reap>): State
    decreases reaps
  {
    if reaps == [] || s.gone then s else ReapAll(ReapOne(s, reaps[0]), reaps[1..])
  }

  function Terminate(s: State): State {
    s.(waitCount := Mod32(s.waitCount + |s.childs|),
       bexit := s.bexit || s.childs != map[],
       surplus := s.surplus + if s.bexit then |s.childs| else 0)
  }

  function Handle(s: State, ev: Event): State {
    match ev
    case Start(path, forked) => Fork(s, path, forked)
    case SigChld(reaps) => ReapAll(s, reaps)
    case SigTerm => Terminate(s)
  }

  /** The test on which main leaves its loop. */
  predicate MayLeave(s: State) {
    s.bexit && s.waitCount == 0
  }

  // ----- what the system calls promise -----

  /** fork fails or gives a pid that is not in use; a pid that was just reaped does not come
      back at once. */
  predicate ForkLaw(s: State, forked: Pid) {
    forked == FORK_FAILED || (forked > 0 && forked !in s.running)
  }

  predicate ReapLaw(s: State, r: Reap) {
    r.child in s.running && ForkLaw(s, r.forked)
  }

  predicate ReapsLawful(s: State, reaps: seq<Reap>)
    decreases reaps
  {
    reaps == [] || s.gone || (ReapLaw(s, reaps[0]) && ReapsLawful(ReapOne(s, reaps[0]), reaps[1..]))
  }

  predicate Lawful(s: State, ev: Event) {
    match ev
    case Start(_, forked) => ForkLaw(s, forked)
    case SigChld(reaps) => ReapsLawful(s, reaps)
    case SigTerm => true
  }

  predicate Runs(s: State, events: seq<Event>, s': State)
    decreases events
  {
    if events == [] || s.gone then s == s'
    else Lawful(s, events[0]) && Runs(Handle(s, events[0]), events[1..], s')
  }

  // ----- the reap loop keeps the paths -----

  function PidsOf(childs: Childs, path: Path): set<Pid> {
    set k | k in childs && childs[k] == path
  }

  /** How many children are on record with this path. */
  function CountOf(childs: Childs, path: Path): nat {
    |PidsOf(childs, path)|
  }

  lemma PidsApart(childs: Childs, k: Pid, p: Path)
    ensures CountOf(childs, p) == |PidsOf(childs, p) - {k}| + if k in childs && childs[k] == p then 1 else 0
  {
    if k in PidsOf(childs, p) {
      assert PidsOf(childs, p) == PidsOf(childs, p) - {k} + {k};
    } else {
      assert PidsOf(childs, p) == PidsOf(childs, p) - {k};
    }
  }

  lemma CountUpdate(childs: Childs, k: Pid, path: Path, p: Path)
    ensures CountOf(childs[k := path], p) + (if k in childs && childs[k] == p then 1 else 0)
         == CountOf(childs, p) + (if path == p then 1 else 0)
  {
    var childs', others := childs[k := path], PidsOf(childs, p) - {k};
    PidsApart(childs, k, p);
    PidsApart(childs', k, p);
    assert PidsOf(childs', p) - {k} == others;
  }

  lemma CountRemove(childs: Childs, k: Pid, p: Path)
    ensures CountOf(childs - {k}, p) + (if k in childs && childs[k] == p then 1 else 0) == CountOf(childs, p)
  {
    PidsApart(childs, k, p);
    assert PidsOf(childs - {k}, p) == PidsOf(childs, p) - {k};
  }

  /** A restart keeps every path as often on record as before if and only if the new pid is not on
      record yet; in particular it must not be the old one again. */
  lemma RestartKeepsPaths(s: State, r: Reap)
    requires Restarts(s, r)
    ensures (forall p :: CountOf(ReapOne(s, r).childs, p) == CountOf(s.childs, p)) <==> r.forked !in s.childs
  {
    var path := s.childs[r.child];
    var mid := s.childs[r.forked := path];
    forall p
      ensures r.forked !in s.childs ==> CountOf(mid - {r.child}, p) == CountOf(s.childs, p)
    {
      CountUpdate(s.childs, r.forked, path, p);
      CountRemove(mid, r.child, p);
    }
    if r.forked in s.childs {
      var lost := s.childs[r.forked];
      CountUpdate(s.childs, r.forked, path, lost);
      CountRemove(mid, r.child, lost);
      CountUpdate(s.childs, r.forked, path, path);
      CountRemove(mid, r.child, path);
    }
  }

  /** Children of this path that exit with a non-zero status. */
  function FailuresOf(s: State, reaps: seq<Reap>, p: Path): nat
    decreases reaps
  {
    if reaps == [] then 0
    else
      (if reaps[0].status != 0 && Recorded(s, reaps[0].child) == p && reaps[0].child in s.childs then 1 else 0)
      + FailuresOf(ReapOne(s, reaps[0]), reaps[1..], p)
  }

  /** Ordinary supervision: no shutdown, nobody reports a failed exec, no empty path, and every
      restart gets a pid that is not on record. */
  predicate Ordinary(s: State, reaps: seq<Reap>)
    decreases reaps
  {
    && !s.bexit && !s.gone
    && (forall k :: k in s.childs ==> s.childs[k] != "")
    && (reaps != [] ==>
          && reaps[0].child in s.childs && reaps[0].status != 246
          && (reaps[0].status == 0 ==> reaps[0].forked !in s.childs)
          && Ordinary(ReapOne(s, reaps[0]), reaps[1..]))
  }

  /** Supervision conservation: over any run of the reap loop the paths on record lose exactly one
      copy for each child that failed. */
  lemma {:induction false} ReapLoopKeepsPaths(s: State, reaps: seq<Reap>, p: Path)
    requires Ordinary(s, reaps)
    ensures CountOf(ReapAll(s, reaps).childs, p) + FailuresOf(s, reaps, p) == CountOf(s.childs, p)
    decreases reaps
  {
    if reaps == [] {
    } else {
      var r := reaps[0];
      if r.status == 0 {
        RestartKeepsPaths(s, r);
      } else {
        CountRemove(s.childs, r.child, p);
      }
      ReapLoopKeepsPaths(ReapOne(s, r), reaps[1..], p);
    }
  }

  /** A reaped child whose exec failed takes the supervisor with it, unless it is shutting down:
      the one status that does so is the byte that exit(-10) leaves. */
  lemma {:induction false} ExecFailureExits(s: State, reaps: seq<Reap>)
    requires !s.gone
    ensures ReapAll(s, reaps).gone
            <==> !s.bexit && exists k :: 0 <= k < |reaps| && reaps[k].status == (-10) % 256
    decreases reaps
  {
    if reaps == [] || GivesUp(s, reaps[0]) {
    } else {
      ExecFailureExits(ReapOne(s, reaps[0]), reaps[1..]);
      assert forall k :: 0 < k < |reaps| ==> reaps[k] == reaps[1..][k - 1];
      if !s.bexit && exists k :: 0 <= k < |reaps| && reaps[k].status == (-10) % 256 {
        var k :| 0 <= k < |reaps| && reaps[k].status == (-10) % 256;
        assert k > 0 && reaps[1..][k - 1].status == (-10) % 256;
      }
    }
  }

  function ChildrenOf(reaps: seq<Reap>): set<Pid> {
    set r <- reaps :: r.child
  }

  /** Children that are not restarted, because they failed otherwise or have no path: they are
      taken off the record, and nothing else happens. */
  lemma {:induction false} FailuresAreDropped(s: State, reaps: seq<Reap>)
    requires !s.bexit && !s.gone
    requires forall r <- reaps ::
               r.status != 246 && (r.status == 0 ==> r.child !in s.childs || s.childs[r.child] == "")
    ensures ReapAll(s, reaps)
         == s.(childs := s.childs - ChildrenOf(reaps), running := s.running - ChildrenOf(reaps))
    decreases reaps
  {
    if reaps == [] {
      assert s.childs - {} == s.childs && s.running - {} == s.running;
    } else {
      var k, rest := reaps[0].child, reaps[1..];
      var next := s.(childs := s.childs - {k}, running := s.running - {k});
      assert reaps == [reaps[0]] + rest && reaps[0] in reaps;
      FailuresAreDropped(next, rest);
      assert ChildrenOf(reaps) == {k} + ChildrenOf(rest);
      assert s.childs - {k} - ChildrenOf(rest) == s.childs - ChildrenOf(reaps);
      assert s.running - {k} - ChildrenOf(rest) == s.running - ChildrenOf(reaps);
    }
  }

  // ----- shutdown -----

  ghost predicate Inv(s: State) {
    && s.running <= s.childs.Keys
    && s.childs.Keys <= s.running + {FORK_FAILED}
    && FORK_FAILED !in s.running
    && (!s.bexit ==> s.waitCount == 0 && s.surplus == 0)
    && (s.bexit ==> s.waitCount == Mod32(|s.childs| + s.surplus))
  }

  lemma Mod32Laws(a: int, b: int)
    ensures Mod32(Mod32(a) + b) == Mod32(a + b) && Mod32(Mod32(a)) == Mod32(a)
    ensures Mod32(a - 1) == Decrement(Mod32(a))
    ensures 0 <= a < 0x1_0000_0000 ==> Mod32(a) == a
  {
  }

  lemma SizeAfterInsert(childs: Childs, k: Pid, path: Path)
    requires k !in childs
    ensures |childs[k := path]| == |childs| + 1
  {
    assert childs[k := path].Keys == childs.Keys + {k};
    assert |childs.Keys + {k}| == |childs.Keys| + 1;
  }

  lemma SizeAfterRemove(childs: Childs, k: Pid)
    requires k in childs
    ensures |childs - {k}| == |childs| - 1
  {
    assert (childs - {k}).Keys == childs.Keys - {k};
    assert |childs.Keys - {k}| == |childs.Keys| - 1;
  }

  lemma ReapKeepsInv(s: State, r: Reap)
    requires Inv(s) && ReapLaw(s, r)
    ensures ReapOne(s, r).gone || Inv(ReapOne(s, r))
    ensures s.bexit ==> |ReapOne(s, r).childs| == |s.childs| - 1 && ReapOne(s, r).running == s.running - {r.child}
  {
    SizeAfterRemove(s.childs, r.child);
    if s.bexit {
      Mod32Laws(|s.childs| + s.surplus, 0);
    }
  }

  lemma {:induction false} ReapsKeepInv(s: State, reaps: seq<Reap>)
    requires (s.gone || Inv(s)) && ReapsLawful(s, reaps)
    ensures ReapAll(s, reaps).gone || Inv(ReapAll(s, reaps))
    decreases reaps
  {
    if reaps == [] || s.gone {
    } else {
      ReapKeepsInv(s, reaps[0]);
      ReapsKeepInv(ReapOne(s, reaps[0]), reaps[1..]);
    }
  }

  lemma ForkKeepsInv(s: State, path: Path, forked: Pid)
    requires Inv(s) && ForkLaw(s, forked)
    ensures Inv(Fork(s, path, forked))
  {
    var childs := s.childs[forked := path];
    if forked in s.childs {
      assert childs.Keys == s.childs.Keys;
      assert |childs| == |childs.Keys| == |s.childs|;
    } else {
      SizeAfterInsert(s.childs, forked, path);
    }
  }

  lemma TerminateKeepsInv(s: State)
    ensures Inv(s) ==> Inv(Terminate(s))
    ensures Terminate(s).gone == s.gone
  {
    if Inv(s) {
      Mod32Laws(|s.childs| + s.surplus, |s.childs|);
      if s.childs == map[] { assert |s.childs| == 0; }
    }
  }

  lemma EventKeepsInv(s: State, ev: Event)
    requires Inv(s) && Lawful(s, ev)
    ensures Handle(s, ev).gone || Inv(Handle(s, ev))
  {
    match ev
    case Start(path, forked) => ForkKeepsInv(s, path, forked);
    case SigChld(reaps) => ReapsKeepInv(s, reaps);
    case SigTerm => TerminateKeepsInv(s);
  }

  lemma {:induction false} RunKeepsInv(s: State, events: seq<Event>, s': State)
    requires (s.gone || Inv(s)) && Runs(s, events, s')
    ensures s'.gone || Inv(s')
    decreases events
  {
    if events == [] || s.gone {
    } else {
      EventKeepsInv(s, events[0]);
      RunKeepsInv(Handle(s, events[0]), events[1..], s');
    }
  }

  lemma InitialInv()
    ensures Inv(INITIAL)
  {
    assert INITIAL.childs.Keys == {};
  }

  lemma ReachableInv(events: seq<Event>, s: State)
    requires Runs(INITIAL, events, s) && !s.gone
    ensures Inv(s)
  {
    InitialInv();
    RunKeepsInv(INITIAL, events, s);
  }

  lemma RecordedRunning(s: State)
    requires Inv(s)
    ensures |s.childs| == |s.running| + if FORK_FAILED in s.childs then 1 else 0
  {
    assert s.childs.Keys == s.running + if FORK_FAILED in s.childs then {FORK_FAILED} else {};
    assert |s.childs| == |s.childs.Keys|;
  }

  // ----- the accounts in terms of the events -----

  /** A child is started once the flag is up. */
  predicate LateStart(s: State, events: seq<Event>)
    decreases events
  {
    events != [] && !s.gone
    && ((events[0].Start? && s.bexit) || LateStart(Handle(s, events[0]), events[1..]))
  }

  /** A SIGTERM finds children on record with the flag already up. */
  predicate Recounted(s: State, events: seq<Event>)
    decreases events
  {
    events != [] && !s.gone
    && ((events[0].SigTerm? && s.bexit && s.childs != map[]) || Recounted(Handle(s, events[0]), events[1..]))
  }

  predicate RestartFails(s: State, reaps: seq<Reap>)
    decreases reaps
  {
    reaps != [] && !s.gone
    && ((Restarts(s, reaps[0]) && reaps[0].forked == FORK_FAILED) || RestartFails(ReapOne(s, reaps[0]), reaps[1..]))
  }

  /** A fork fails, at a start or at a restart. */
  predicate ForkFails(s: State, events: seq<Event>)
    decreases events
  {
    events != [] && !s.gone
    && ((events[0].Start? && events[0].forked == FORK_FAILED)
        || (events[0].SigChld? && RestartFails(s, events[0].reaps))
        || ForkFails(Handle(s, events[0]), events[1..]))
  }

  /** How often SIGTERM counts a child. */
  function Counted(s: State, events: seq<Event>): nat
    decreases events
  {
    if events == [] || s.gone then 0
    else (if events[0].SigTerm? then |s.childs| else 0) + Counted(Handle(s, events[0]), events[1..])
  }

  /** How often it does so with the flag already up. */
  function CountedAgain(s: State, events: seq<Event>): nat
    decreases events
  {
    if events == [] || s.gone then 0
    else
      (if events[0].SigTerm? && s.bexit then |s.childs| else 0)
      + CountedAgain(Handle(s, events[0]), events[1..])
  }

  /** How many entries the late starts add to the record. */
  function StartedLate(s: State, events: seq<Event>): nat
    decreases events
  {
    if events == [] || s.gone then 0
    else
      (if events[0].Start? && s.bexit && events[0].forked !in s.childs then 1 else 0)
      + StartedLate(Handle(s, events[0]), events[1..])
  }

  lemma {:induction false} RecountedCounts(s: State, events: seq<Event>)
    ensures Recounted(s, events) <==> CountedAgain(s, events) > 0
    decreases events
  {
    if events == [] || s.gone {
    } else {
      RecountedCounts(Handle(s, events[0]), events[1..]);
    }
  }

  lemma {:induction false} NoLateStartCounts(s: State, events: seq<Event>)
    requires !LateStart(s, events)
    ensures StartedLate(s, events) == 0
    decreases events
  {
    if events == [] || s.gone {
    } else {
      NoLateStartCounts(Handle(s, events[0]), events[1..]);
    }
  }

  /** The reap loop leaves flag and surplus alone and, with the flag up, adds nothing to the record. */
  lemma {:induction false} ReapsKeepSurplus(s: State, reaps: seq<Reap>)
    requires (s.gone || Inv(s)) && ReapsLawful(s, reaps)
    ensures var e := ReapAll(s, reaps);
            && e.bexit == s.bexit && e.surplus == s.surplus
            && (s.bexit ==> e.gone == s.gone && |e.childs| <= |s.childs|)
    decreases reaps
  {
    if reaps == [] || s.gone {
    } else {
      ReapKeepsInv(s, reaps[0]);
      ReapsKeepSurplus(ReapOne(s, reaps[0]), reaps[1..]);
    }
  }

  /** What the counter stands for, before the wrap. */
  function Balance(s: State): int {
    if s.bexit then |s.childs| + s.surplus else 0
  }

  lemma EventSurplus(s: State, ev: Event)
    requires Inv(s) && !s.gone && Lawful(s, ev)
    ensures var e := Handle(s, ev);
            && e.surplus == s.surplus + (if ev.SigTerm? && s.bexit then |s.childs| else 0)
                            - (if ev.Start? && s.bexit && ev.forked !in s.childs then 1 else 0)
            && Balance(e) <= Balance(s) + (if ev.SigTerm? then |s.childs| else 0)
            && (s.bexit ==> e.bexit && !e.gone)
  {
    match ev
    case Start(path, forked) =>
      if forked in s.childs {
        assert s.childs[forked := path].Keys == s.childs.Keys;
        assert |s.childs[forked := path]| == |s.childs[forked := path].Keys|;
      } else {
        SizeAfterInsert(s.childs, forked, path);
      }
    case SigChld(reaps) => ReapsKeepSurplus(s, reaps);
    case SigTerm =>
  }

  /** The surplus is what SIGTERM counted again less what was started late, and the balance is
      never more than what SIGTERM counted. */
  lemma {:induction false} SurplusFromEvents(s: State, events: seq<Event>, s': State)
    requires Inv(s) && !s.gone && Runs(s, events, s') && !s'.gone
    ensures s'.surplus == s.surplus + CountedAgain(s, events) - StartedLate(s, events)
    ensures Balance(s') <= Balance(s) + Counted(s, events)
    ensures s.bexit ==> s'.bexit
    decreases events
  {
    if events == [] {
    } else {
      var next := Handle(s, events[0]);
      assert !next.gone;
      EventSurplus(s, events[0]);
      EventKeepsInv(s, events[0]);
      SurplusFromEvents(next, events[1..], s');
    }
  }

  /** With the flag up no run ends in exit(0). */
  lemma {:induction false} NoExitInShutdown(s: State, events: seq<Event>, s': State)
    requires Inv(s) && !s.gone && s.bexit && Runs(s, events, s')
    ensures !s'.gone
    decreases events
  {
    if events == [] {
    } else {
      EventSurplus(s, events[0]);
      EventKeepsInv(s, events[0]);
      NoExitInShutdown(Handle(s, events[0]), events[1..], s');
    }
  }

  lemma {:induction false} FailureRecordedByReaps(s: State, reaps: seq<Reap>)
    requires (s.gone || Inv(s)) && ReapsLawful(s, reaps) && !ReapAll(s, reaps).gone
    ensures FORK_FAILED in ReapAll(s, reaps).childs <==> FORK_FAILED in s.childs || RestartFails(s, reaps)
    decreases reaps
  {
    if reaps == [] || s.gone {
    } else {
      ReapKeepsInv(s, reaps[0]);
      FailureRecordedByReaps(ReapOne(s, reaps[0]), reaps[1..]);
    }
  }

  /** A failed fork is recorded and, since wait never returns it, stays on record. */
  lemma {:induction false} FailureRecorded(s: State, events: seq<Event>, s': State)
    requires Inv(s) && !s.gone && Runs(s, events, s') && !s'.gone
    ensures FORK_FAILED in s'.childs <==> FORK_FAILED in s.childs || ForkFails(s, events)
    decreases events
  {
    if events == [] {
    } else {
      var next := Handle(s, events[0]);
      assert !next.gone;
      if events[0].SigChld? {
        FailureRecordedByReaps(s, events[0].reaps);
      }
      EventKeepsInv(s, events[0]);
      FailureRecorded(next, events[1..], s');
    }
  }

  lemma ZeroExactly(n: int)
    requires -0x1_0000_0000 < n < 0x1_0000_0000
    ensures Mod32(n) == 0 <==> n == 0
  {
  }

  /** Children not reaped, plus one for a failed fork, plus what was counted again, less what was
      started late: that is what main still waits for. */
  lemma BalanceFromEvents(events: seq<Event>, s: State)
    requires Runs(INITIAL, events, s) && !s.gone && s.bexit
    ensures Inv(s)
    ensures Balance(s) == |s.running| + (if ForkFails(INITIAL, events) then 1 else 0)
                          + CountedAgain(INITIAL, events) - StartedLate(INITIAL, events)
    ensures Balance(s) <= Counted(INITIAL, events)
  {
    InitialInv();
    ReachableInv(events, s);
    RecordedRunning(s);
    SurplusFromEvents(INITIAL, events, s);
    FailureRecorded(INITIAL, events, s);
  }

  /** When main may leave, for every run of events that counts fewer than 2^32 children: the
      children not reaped, a failed fork and the children counted again are as many as those
      started late. */
  lemma LeavesInGeneral(events: seq<Event>, s: State)
    requires Runs(INITIAL, events, s) && !s.gone
    requires Counted(INITIAL, events) < 0x1_0000_0000 && StartedLate(INITIAL, events) < 0x1_0000_0000
    ensures MayLeave(s) <==>
            s.bexit && |s.running| + (if ForkFails(INITIAL, events) then 1 else 0) + CountedAgain(INITIAL, events)
                       == StartedLate(INITIAL, events)
  {
    if s.bexit {
      BalanceFromEvents(events, s);
      ZeroExactly(Balance(s));
    }
  }

  /** Main may leave exactly when every child is reaped, provided that all children are started
      before SIGTERM finds any, no fork fails, and no second SIGTERM finds children on record.
      Without late starts the last two are necessary: otherwise it may not leave at all. */
  lemma LeavesExactlyWhen(events: seq<Event>, s: State)
    requires Runs(INITIAL, events, s) && !s.gone
    requires Counted(INITIAL, events) < 0x1_0000_0000
    requires !LateStart(INITIAL, events)
    ensures MayLeave(s) <==>
            s.bexit && s.running == {} && !ForkFails(INITIAL, events) && !Recounted(INITIAL, events)
  {
    NoLateStartCounts(INITIAL, events);
    RecountedCounts(INITIAL, events);
    LeavesInGeneral(events, s);
  }

  predicate NoStarts(events: seq<Event>) {
    forall k :: 0 <= k < |events| ==> !events[k].Start?
  }

  /** No child is started behind a SIGTERM. */
  predicate StartsFirst(events: seq<Event>) {
    forall j, k :: 0 <= j < k < |events| && events[j].SigTerm? ==> !events[k].Start?
  }

  function SigTerms(events: seq<Event>): nat {
    if events == [] then 0 else (if events[0].SigTerm? then 1 else 0) + SigTerms(events[1..])
  }

  lemma {:induction false} ReapsKeepFlag(s: State, reaps: seq<Reap>)
    ensures ReapAll(s, reaps).bexit == s.bexit
    decreases reaps
  {
    if reaps == [] || s.gone {
    } else {
      ReapsKeepFlag(ReapOne(s, reaps[0]), reaps[1..]);
    }
  }

  lemma {:induction false} NoStartsNoLateStart(s: State, events: seq<Event>)
    requires NoStarts(events) || (StartsFirst(events) && !s.bexit)
    ensures !LateStart(s, events)
    decreases events
  {
    if events == [] || s.gone {
    } else {
      var rest := events[1..];
      assert forall k :: 0 <= k < |rest| ==> rest[k] == events[k + 1];
      if events[0].SigChld? { ReapsKeepFlag(s, events[0].reaps); }
      NoStartsNoLateStart(Handle(s, events[0]), rest);
    }
  }

  lemma {:induction false} RecountedNeedsTwo(s: State, events: seq<Event>)
    requires Recounted(s, events)
    ensures SigTerms(events) >= if s.bexit then 1 else 2
    decreases events
  {
    if events[0].SigTerm? && s.bexit && s.childs != map[] {
    } else {
      if events[0].SigChld? { ReapsKeepFlag(s, events[0].reaps); }
      RecountedNeedsTwo(Handle(s, events[0]), events[1..]);
    }
  }

  /** Shutdown accounting: with all children started before the first SIGTERM, at most one
      SIGTERM, and no failed fork, the raised flag means that the counter is the number of children
      on record and the number of children not reaped, and main may leave exactly when there are
      none. */
  lemma ShutdownAccounting(events: seq<Event>, s: State)
    requires Runs(INITIAL, events, s) && !s.gone && s.bexit
    requires StartsFirst(events) && SigTerms(events) <= 1 && !ForkFails(INITIAL, events)
    requires Counted(INITIAL, events) < 0x1_0000_0000
    ensures s.waitCount == |s.childs| == |s.running| && s.childs.Keys == s.running
    ensures MayLeave(s) <==> s.running == {}
  {
    assert !LateStart(INITIAL, events) by {
      NoStartsNoLateStart(INITIAL, events);
    }
    assert !Recounted(INITIAL, events) by {
      if Recounted(INITIAL, events) {
        RecountedNeedsTwo(INITIAL, events);
      }
    }
    assert Balance(s) == |s.running| < 0x1_0000_0000 && Inv(s) by {
      BalanceFromEvents(events, s);
      NoLateStartCounts(INITIAL, events);
      RecountedCounts(INITIAL, events);
    }
    assert FORK_FAILED !in s.childs by {
      InitialInv();
      FailureRecorded(INITIAL, events, s);
    }
    LeavesExactlyWhen(events, s);
    RecordedRunning(s);
    Mod32Laws(|s.running|, 0);
  }

  /** Once a fork has failed or a second SIGTERM has found children on record, main never leaves,
      whatever signals follow, as long as SIGTERM counts fewer than 2^32 children in all. */
  lemma NeverLeaves(events: seq<Event>, s: State, more: seq<Event>, s': State)
    requires Runs(INITIAL, events, s) && !s.gone && s.bexit && !LateStart(INITIAL, events)
    requires ForkFails(INITIAL, events) || Recounted(INITIAL, events)
    requires Runs(s, more, s') && NoStarts(more)
    requires Counted(INITIAL, events) + Counted(s, more) < 0x1_0000_0000
    ensures !MayLeave(s') && !s'.gone
  {
    BalanceFromEvents(events, s);
    NoLateStartCounts(INITIAL, events);
    RecountedCounts(INITIAL, events);
    RecordedRunning(s);
    NoExitInShutdown(s, more, s');
    NoStartsNoLateStart(s, more);
    NoLateStartCounts(s, more);
    SurplusFromEvents(s, more, s');
    FailureRecorded(s, more, s');
    RunKeepsInv(s, more, s');
    ZeroExactly(Balance(s'));
  }

  lemma {:induction false} NothingOnRecord(s: State, events: seq<Event>, s': State)
    requires s.childs == map[] && s.running == {} && Mod32(s.waitCount) == s.waitCount
    requires NoStarts(events) && Runs(s, events, s')
    ensures s' == s
    decreases events
  {
    if events == [] || s.gone {
    } else {
      assert |s.childs| == 0;
      match events[0] {
        case SigChld(reaps) => assert reaps == [];
        case SigTerm =>
      }
      NothingOnRecord(s, events[1..], s');
    }
  }

  /** SIGTERM takes effect only if a child is on record: with all children gone before, no run
      of signals ever lets main leave. */
  lemma NoChildrenNoExit(s: State, events: seq<Event>, s': State)
    requires s.childs == map[] && s.running == {} && !s.bexit && s.waitCount == 0
    requires NoStarts(events) && Runs(s, events, s')
    ensures s' == s && !MayLeave(s')
  {
    NothingOnRecord(s, events, s');
  }

  lemma SecondSigTermRuns(path: Path, pid: Pid)
    requires pid > 0
    ensures var r := Reap(pid, 0, FORK_FAILED);
            var s := ReapOne(Terminate(Terminate(Fork(INITIAL, path, pid))), r);
            && Runs(INITIAL, [Start(path, pid), SigTerm, SigTerm, SigChld([r])], s)
            && s == State(map[], true, 1, false, {}, 1)
  {
    var r := Reap(pid, 0, FORK_FAILED);
    var s1 := Fork(INITIAL, path, pid);
    assert s1.childs == map[pid := path];
    var s3 := Terminate(Terminate(s1));
    assert s3.waitCount == 2;
    var s4 := ReapOne(s3, r);
    ReapsOne(s3, r);
    RunsStep(s3, SigChld([r]), [], s4);
    RunsStep(Terminate(s1), SigTerm, [SigChld([r])], s4);
    RunsStep(s1, SigTerm, [SigTerm, SigChld([r])], s4);
    RunsStep(INITIAL, Start(path, pid), [SigTerm, SigTerm, SigChld([r])], s4);
  }

  /** One child, and two SIGTERMs before it is reaped: then nothing is on record or running, and
      no run of signals ever lets main leave. */
  lemma SecondSigTermHangs(path: Path, pid: Pid)
    requires pid > 0
    ensures var events := [Start(path, pid), SigTerm, SigTerm, SigChld([Reap(pid, 0, FORK_FAILED)])];
            exists s :: Runs(INITIAL, events, s) && s.bexit && s.running == {} && s.childs == map[]
                        && forall more, s' :: NoStarts(more) && Runs(s, more, s') ==> !MayLeave(s')
  {
    SecondSigTermRuns(path, pid);
    var s := State(map[], true, 1, false, {}, 1);
    forall more, s' | NoStarts(more) && Runs(s, more, s')
      ensures !MayLeave(s')
    {
      NothingOnRecord(s, more, s');
    }
  }

  /** fork fails for the only child: SIGTERM counts the entry under pid -1, which no wait ever
      takes off the record, and main never leaves although nothing runs. */
  lemma FailedForkHangs(path: Path, more: seq<Event>, s': State)
    requires NoStarts(more)
    ensures var s := State(map[-1 := path], true, 1, false, {}, 0);
            && Runs(INITIAL, [Start(path, -1), SigTerm], s)
            && (Runs(s, more, s') && Counted(s, more) < 0xFFFF_FFFF ==> !MayLeave(s') && !s'.gone)
  {
    var events := [Start(path, -1), SigTerm];
    var s := State(map[-1 := path], true, 1, false, {}, 0);
    var s1 := Fork(INITIAL, path, -1);
    assert s1.childs == map[-1 := path] && Terminate(s1) == s;
    RunsStep(s1, SigTerm, [], s);
    RunsStep(INITIAL, Start(path, -1), [SigTerm], s);
    assert events[1..] == [SigTerm] && [SigTerm][1..] == [];
    if Runs(s, more, s') && Counted(s, more) < 0xFFFF_FFFF {
      assert Counted(s1, [SigTerm]) == 1;
      NeverLeaves(events, s, more, s');
    }
  }

  /** A child started behind the SIGTERM is not waited for: main may leave with it still running. */
  lemma LateStartLeavesEarly(path: Path, pid: Pid, latePath: Path, late: Pid)
    requires pid > 0 && late > 0 && pid != late
    ensures var r := Reap(pid, 0, FORK_FAILED);
            var s := ReapOne(Fork(Terminate(Fork(INITIAL, path, pid)), latePath, late), r);
            && Runs(INITIAL, [Start(path, pid), SigTerm, Start(latePath, late), SigChld([r])], s)
            && s.running == {late} && MayLeave(s)
  {
    var r := Reap(pid, 0, FORK_FAILED);
    var s1 := Fork(INITIAL, path, pid);
    assert s1.childs == map[pid := path];
    var s2 := Terminate(s1);
    assert s2.waitCount == 1;
    var s3 := Fork(s2, latePath, late);
    var s4 := ReapOne(s3, r);
    assert s3.running == {pid, late};
    ReapsOne(s3, r);
    RunsStep(s3, SigChld([r]), [], s4);
    RunsStep(s2, Start(latePath, late), [SigChld([r])], s4);
    RunsStep(s1, SigTerm, [Start(latePath, late), SigChld([r])], s4);
    RunsStep(INITIAL, Start(path, pid), [SigTerm, Start(latePath, late), SigChld([r])], s4);
  }

  lemma ReapsOne(s: State, r: Reap)
    requires !s.gone
    ensures ReapAll(s, [r]) == ReapOne(s, r)
    ensures ReapsLawful(s, [r]) <==> ReapLaw(s, r)
  {
    assert [r][1..] == [];
  }

  lemma RunsStep(s: State, ev: Event, rest: seq<Event>, s': State)
    requires !s.gone && Lawful(s, ev) && Runs(Handle(s, ev), rest, s')
    ensures Runs(s, [ev] + rest, s')
  {
    assert ([ev] + rest)[1..] == rest;
  }

  /** Once SIGTERM has found children, every reap takes one off the record, for good. */
  lemma {:induction false} RecordShrinks(s: State, reaps: seq<Reap>)
    requires Inv(s) && s.bexit && !s.gone && ReapsLawful(s, reaps)
    ensures |ReapAll(s, reaps).childs| == |s.childs| - |reaps|
    ensures ReapAll(s, reaps).bexit && !ReapAll(s, reaps).gone
    decreases reaps
  {
    if reaps == [] {
    } else {
      ReapKeepsInv(s, reaps[0]);
      RecordShrinks(ReapOne(s, reaps[0]), reaps[1..]);
    }
  }

  // ----- the handlers -----

  /** The first `n` children started. */
  function Created(s: State, paths: seq<Path>, pids: seq<Pid>, n: nat): State
    requires n <= |paths| == |pids|
  {
    if n == 0 then s else Fork(Created(s, paths, pids, n - 1), paths[n - 1], pids[n - 1])
  }

  predicate DistinctPids(pids: seq<Pid>) {
    && (forall i :: 0 <= i < |pids| ==> pids[i] > 0)
    && (forall i, j :: 0 <= i < j < |pids| ==> pids[i] != pids[j])
  }

  lemma {:induction false} CreatedKeys(paths: seq<Path>, pids: seq<Pid>, n: nat, k: Pid)
    requires n <= |paths| == |pids| && DistinctPids(pids)
    ensures k in Created(INITIAL, paths, pids, n).childs <==> k in pids[..n]
    ensures k in Created(INITIAL, paths, pids, n).running <==> k in pids[..n]
  {
    if n == 0 {
    } else {
      CreatedKeys(paths, pids, n - 1, k);
      assert pids[..n] == pids[..n - 1] + [pids[n - 1]];
    }
  }

  /** Started with distinct pids, every child is on record under its own path, and nobody else. */
  lemma {:induction false} CreatedRecordsAll(paths: seq<Path>, pids: seq<Pid>, n: nat, i: nat)
    requires n <= |paths| == |pids| && DistinctPids(pids)
    ensures |Created(INITIAL, paths, pids, n).childs| == n
    ensures i < n ==> pids[i] in Created(INITIAL, paths, pids, n).childs
                      && Created(INITIAL, paths, pids, n).childs[pids[i]] == paths[i]
  {
    if n == 0 {
    } else {
      CreatedRecordsAll(paths, pids, n - 1, i);
      CreatedKeys(paths, pids, n - 1, pids[n - 1]);
      SizeAfterInsert(Created(INITIAL, paths, pids, n - 1).childs, pids[n - 1], paths[n - 1]);
      assert pids[n - 1] !in pids[..n - 1];
    }
  }

  lemma NextPidIsNew(paths: seq<Path>, pids: seq<Pid>, n: nat)
    requires n < |paths| == |pids| && DistinctPids(pids)
    ensures ForkLaw(Created(INITIAL, paths, pids, n), pids[n])
  {
    CreatedKeys(paths, pids, n, pids[n]);
    assert pids[n] !in pids[..n];
  }

  lemma {:induction false} CreatedKeepsInv(paths: seq<Path>, pids: seq<Pid>, n: nat)
    requires n <= |paths| == |pids| && DistinctPids(pids)
    ensures Inv(Created(INITIAL, paths, pids, n)) && !Created(INITIAL, paths, pids, n).gone
  {
    if n == 0 {
      InitialInv();
    } else {
      var before := Created(INITIAL, paths, pids, n - 1);
      CreatedKeepsInv(paths, pids, n - 1);
      assert ForkLaw(before, pids[n - 1]) by {
        NextPidIsNew(paths, pids, n - 1);
      }
      ForkKeepsInv(before, paths[n - 1], pids[n - 1]);
    }
  }

  /** In the SIGTERM loop, with `n` children counted. */
  ghost function CountedUpTo(s: State, n: nat): State {
    s.(waitCount := Mod32(s.waitCount + n), bexit := s.bexit || n > 0)
  }

  lemma CountOneMore(s: State, n: nat)
    ensures CountedUpTo(s, n + 1)
         == CountedUpTo(s, n).(waitCount := Mod32(CountedUpTo(s, n).waitCount + 1), bexit := true)
  {
    Mod32Laws(s.waitCount + n, 1);
  }

  lemma CountedAll(s: State)
    ensures CountedUpTo(s, |s.childs|).(surplus := s.surplus + if s.bexit then |s.childs| else 0) == Terminate(s)
  {
  }

  method PickFrom(todo: set<Pid>) returns (child: Pid)
    requires todo != {}
    ensures child in todo
  {
    if forall c: Pid :: c !in todo {
      assert false;
    }
    child :| child in todo;
  }

  class Guard {
    var childs: Childs
    var bexit: bool
    var waitCount: nat
    var gone: bool
    ghost var running: set<Pid>
    ghost var surplus: int

    ghost function View(): State
      reads this
    {
      State(childs, bexit, waitCount, gone, running, surplus)
    }

    /** The record covers the running children, and the counter stands for the balance. */
    ghost predicate Valid()
      reads this
    {
      !gone && Inv(View())
    }

    constructor ()
      ensures Valid() && View() == INITIAL
    {
      childs, bexit, waitCount, gone := map[], false, 0, false;
      running, surplus := {}, 0;
      new;
      InitialInv();
    }

    method BecomeEternal(path: Path, forked: Pid)
      modifies this
      ensures View() == Fork(old(View()), path, forked)
      ensures old(Valid()) && ForkLaw(old(View()), forked) ==> Valid()
      ensures childs == old(childs)[forked := path] && waitCount == old(waitCount) && bexit == old(bexit)
    {
      if Valid() && ForkLaw(View(), forked) {
        ForkKeepsInv(View(), path, forked);
      }
      ghost var was := childs;
      childs := childs[forked := path];
      running := if forked == FORK_FAILED then running else running + {forked};
      surplus := if bexit && forked !in was then surplus - 1 else surplus;
    }

    method CreateChildProcess(paths: seq<Path>, pids: seq<Pid>)
      requires |pids| == |paths|
      modifies this
      ensures View() == Created(old(View()), paths, pids, |paths|)
      ensures old(View()) == INITIAL && DistinctPids(pids) ==> Valid()
    {
      if DistinctPids(pids) {
        CreatedKeepsInv(paths, pids, |paths|);
      }
      for index := 0 to |paths|
        invariant View() == Created(old(View()), paths, pids, index)
      {
        BecomeEternal(paths[index], pids[index]);
      }
    }

    /** One turn of the reap loop. */
    method OnReaped(r: Reap)
      requires !gone
      modifies this
      ensures View() == ReapOne(old(View()), r)
      ensures gone <==> !old(bexit) && r.status == 246
      ensures !gone && !old(bexit) && r.status == 0 && r.child in old(childs) && old(childs)[r.child] != "" ==>
                childs == old(childs)[r.forked := old(childs)[r.child]] - {r.child}
      ensures !gone && (old(bexit) || r.status != 0 || r.child !in old(childs) || old(childs)[r.child] == "") ==>
                childs == old(childs) - {r.child}
      ensures bexit == old(bexit)
      ensures waitCount == if !bexit then old(waitCount)
                           else if old(waitCount) == 0 then 0xFFFF_FFFF else old(waitCount) - 1
    {
      if !bexit {
        var file := if r.child in childs then childs[r.child] else "";
        if r.status == 0 && file != "" {
          BecomeEternal(file, r.forked);
        } else if r.status == EXEC_FAILED {
          running := running - {r.child};
          gone := true;
          return;
        }
      } else {
        waitCount := Decrement(waitCount);
      }
      childs := childs - {r.child};
      running := running - {r.child};
    }

    /** The SIGCHLD handler; `reaps` is what wait returns until it returns -1. */
    method OnSigChld(reaps: seq<Reap>)
      requires !gone
      modifies this
      ensures View() == ReapAll(old(View()), reaps)
      ensures old(Valid()) && ReapsLawful(old(View()), reaps) ==> gone || Valid()
    {
      if Valid() && ReapsLawful(View(), reaps) {
        ReapsKeepInv(View(), reaps);
      }
      var i := 0;
      while i < |reaps|
        invariant i <= |reaps| && !gone
        invariant ReapAll(View(), reaps[i..]) == ReapAll(old(View()), reaps)
      {
        OnReaped(reaps[i]);
        if gone {
          return;
        }
        assert reaps[i..][1..] == reaps[i + 1..];
        i := i + 1;
      }
    }

    /** The loop over the record: every child on it is counted and killed. */
    method KillAll() returns (killed: set<Pid>)
      requires Mod32(waitCount) == waitCount
      modifies `waitCount, `bexit
      ensures View() == CountedUpTo(old(View()), |childs|) && killed == childs.Keys
    {
      ghost var was, n := View(), 0;
      var todo := childs.Keys;
      killed := {};
      while todo != {}
        invariant n + |todo| == |was.childs| && View() == CountedUpTo(was, n)
        invariant killed + todo == was.childs.Keys
        decreases |todo|
      {
        var child := PickFrom(todo);
        CountOneMore(was, n);
        waitCount := Mod32(waitCount + 1);
        bexit := true;
        todo, killed, n := todo - {child}, killed + {child}, n + 1;
      }
    }

    /** The SIGTERM handler. */
    method OnSigTerm() returns (killed: set<Pid>)
      requires Mod32(waitCount) == waitCount
      modifies `waitCount, `bexit, `surplus
      ensures View() == Terminate(old(View())) && killed == childs.Keys
      ensures waitCount == (old(waitCount) + |childs|) % 0x1_0000_0000
      ensures bexit == (old(bexit) || childs != map[])
      ensures old(Valid()) ==> Valid()
    {
      ghost var was := View();
      TerminateKeepsInv(was);
      killed := KillAll();
      CountedAll(was);
      surplus := surplus + if was.bexit then |childs| else 0;
    }

    /** The test in the loop of main. */
    method TestExit() returns (leave: bool)
      ensures leave == MayLeave(View())
      ensures leave && Valid() ==> Mod32(Balance(View())) == 0
      ensures leave <==> bexit && waitCount == 0
    {
      leave := bexit && waitCount == 0;
    }
  }
}
