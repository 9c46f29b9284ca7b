/** When the chat room blocks for good, and how long a run can be. */
module ChatProgress {
  import opened Totals
  import opened ChatRoom

  // ----- the blocking condition -----

  predicate Returned(w: Writer) { w.Failed? || w.Drained? }

  /** The room is sending to a client whose writer has returned and whose channel is full. */
  predicate TargetStalled(s: Chat) {
    && s.room.Sending?
    && s.room.current < |s.clients|
    && Returned(s.clients[s.room.current].writer)
    && |s.clients[s.room.current].queue| == 256
  }

  /** No continuation ever moves the room on. */
  ghost predicate PermanentlyBlocked(s: Chat) {
    forall schedule, s' :: Runs(s, schedule, s') ==> s'.room == s.room
  }

  /** Once the target is stalled it stays so, and nobody joins, leaves or is heard any more. */
  lemma {:induction false} StalledForGood(scripts: seq<seq<string>>, s: Chat, schedule: seq<Action>, s': Chat)
    requires Inv(scripts, s) && TargetStalled(s) && Runs(s, schedule, s')
    ensures TargetStalled(s')
    ensures s'.room == s.room && s'.members == s.members && s'.log == s.log
    decreases schedule
  {
    if schedule == [] {
    } else {
      assert Accounted(s, s.room.current);
      StepKeepsInv(scripts, s, schedule[0]);
      StalledForGood(scripts, Apply(s, schedule[0]), schedule[1..], s');
    }
  }

  /** The steps that let the room's send to `c` go through. */
  predicate Helps(a: Action, c: nat) {
    a.Push? || a == StartWriter(c) || a == Dequeue(c) || a == WriteOk(c)
  }

  lemma RunsTwo(s: Chat, a: Action, b: Action)
    requires Enabled(s, a) && Enabled(Apply(s, a), b)
    ensures Runs(s, [a, b], Apply(Apply(s, a), b))
  {
    assert [a, b][1..] == [b];
    assert [b][1..] == [];
    assert Runs(Apply(s, a), [b], Apply(Apply(s, a), b));
  }

  lemma RunsThree(s: Chat, a: Action, b: Action, c: Action)
    requires Enabled(s, a) && Enabled(Apply(s, a), b) && Enabled(Apply(Apply(s, a), b), c)
    ensures Runs(s, [a, b, c], Apply(Apply(Apply(s, a), b), c))
  {
    assert [a, b, c][1..] == [b, c];
    RunsTwo(Apply(s, a), b, c);
  }

  /** A send that is not stalled goes through after at most two steps of the target's own
      goroutines. */
  lemma SendGoesThrough(scripts: seq<seq<string>>, s: Chat) returns (schedule: seq<Action>, s': Chat)
    requires Inv(scripts, s) && s.room.Sending? && !TargetStalled(s)
    ensures 0 < |schedule| <= 3 && forall a :: a in schedule ==> Helps(a, s.room.current)
    ensures Runs(s, schedule, s') && s'.room == Ranging(s.room.e, s.room.todo)
  {
    var i := s.room.current;
    assert Accounted(s, i);
    var c := s.clients[i];
    if |c.queue| < MESSAGE_BUFFER_SIZE {
      schedule, s' := [Push], Apply(s, Push);
      assert [Push][1..] == [];
      assert Runs(s', [], s');
    } else if c.writer.AtRange? {
      schedule, s' := [Dequeue(i), Push], Apply(Apply(s, Dequeue(i)), Push);
      RunsTwo(s, Dequeue(i), Push);
    } else {
      var first := if c.writer.NotStarted? then StartWriter(i) else WriteOk(i);
      schedule := [first, Dequeue(i), Push];
      s' := Apply(Apply(Apply(s, first), Dequeue(i)), Push);
      RunsThree(s, first, Dequeue(i), Push);
    }
  }

  /** In a broadcast the room blocks for good if and only if the writer of its current target
      has returned with that target's channel full. */
  lemma BlockedExactlyWhenStalled(scripts: seq<seq<string>>, schedule: seq<Action>, s: Chat)
    requires Runs(Init(scripts), schedule, s) && s.room.Sending?
    ensures PermanentlyBlocked(s) <==> TargetStalled(s)
    ensures TargetStalled(s) ==>
              forall rest, s' :: Runs(s, rest, s') ==> s'.members == s.members && s'.log == s.log
  {
    InitInv(scripts);
    RunKeepsInv(scripts, Init(scripts), schedule, s);
    if TargetStalled(s) {
      forall rest, s' | Runs(s, rest, s')
        ensures s'.room == s.room && s'.members == s.members && s'.log == s.log
      {
        StalledForGood(scripts, s, rest, s');
      }
    } else {
      var rest, s' := SendGoesThrough(scripts, s);
      assert Runs(s, rest, s') && s'.room != s.room;
    }
  }

  // ----- the states where a run ends -----

  predicate AllDone(s: Chat) {
    && s.room.Idle?
    && forall i :: 0 <= i < |s.clients| ==> s.clients[i].handler.Gone? && Returned(s.clients[i].writer)
  }

  /** The room is stalled and everybody else waits for it, or is done. */
  predicate Jammed(s: Chat) {
    && TargetStalled(s)
    && forall i :: 0 <= i < |s.clients| ==>
         var c := s.clients[i];
         && (c.handler.Upgraded? || c.handler.Forwarding? || c.handler.Leaving? || c.handler.Gone?)
         && (Returned(c.writer) || c.writer.NotStarted? || (c.writer.AtRange? && c.queue == [] && !c.closed))
  }

  predicate HandlerCanMove(room: RoomPc, h: Handler) {
    h.Joined? || h.Reading? || (room.Idle? && !h.Gone?)
  }

  predicate WriterCanMove(c: Client) {
    c.writer.Writing? || (c.writer.AtRange? && (c.queue != [] || c.closed))
  }

  lemma HandlerMoves(s: Chat, i: nat) returns (a: Action)
    requires i < |s.clients| && HandlerCanMove(s.room, s.clients[i].handler)
    ensures Enabled(s, a)
  {
    match s.clients[i].handler
    case Upgraded => a := Join(i);
    case Joined => a := StartWriter(i);
    case Reading => a := ReadErr(i);
    case Forwarding(_) => a := Forward(i, "");
    case Leaving => a := Leave(i);
  }

  lemma WriterMoves(s: Chat, i: nat) returns (a: Action)
    requires i < |s.clients| && WriterCanMove(s.clients[i])
    ensures Enabled(s, a)
  {
    a := if s.clients[i].writer.Writing? then WriteOk(i)
         else if s.clients[i].queue != [] then Dequeue(i) else Drain(i);
  }

  lemma RoomMoves(scripts: seq<seq<string>>, s: Chat) returns (a: Action)
    requires Inv(scripts, s) && !s.room.Idle? && !TargetStalled(s)
    ensures Enabled(s, a)
  {
    if s.room.Sending? {
      var schedule, s' := SendGoesThrough(scripts, s);
      a := schedule[0];
    } else if s.room.todo == {} {
      a := EndRange;
    } else {
      var i :| i in s.room.todo;
      a := Pick(i);
    }
  }

  lemma SomethingMoves(scripts: seq<seq<string>>, s: Chat) returns (a: Action)
    requires Inv(scripts, s) && !AllDone(s) && !Jammed(s)
    ensures Enabled(s, a)
  {
    if !s.room.Idle? && !TargetStalled(s) {
      a := RoomMoves(scripts, s);
    } else if i :| 0 <= i < |s.clients| && HandlerCanMove(s.room, s.clients[i].handler) {
      a := HandlerMoves(s, i);
    } else if i :| 0 <= i < |s.clients| && WriterCanMove(s.clients[i]) {
      a := WriterMoves(s, i);
    } else {
      forall i | 0 <= i < |s.clients|
        ensures s.room.Idle? ==> Returned(s.clients[i].writer)
      {
        assert Accounted(s, i);
      }
      assert false;
    }
  }

  lemma NothingMoves(scripts: seq<seq<string>>, s: Chat, a: Action)
    requires Inv(scripts, s) && (AllDone(s) || Jammed(s))
    ensures !Enabled(s, a)
  {
    if s.room.Sending? {
      assert Accounted(s, s.room.current);
    }
  }

  /** A run can go on exactly until every connection is done, or the room has stalled and all
      the others wait for it. */
  lemma RunsEndDoneOrJammed(scripts: seq<seq<string>>, schedule: seq<Action>, s: Chat)
    requires Runs(Init(scripts), schedule, s)
    ensures (forall a: Action :: !Enabled(s, a)) <==> AllDone(s) || Jammed(s)
  {
    InitInv(scripts);
    RunKeepsInv(scripts, Init(scripts), schedule, s);
    if AllDone(s) || Jammed(s) {
      forall a: Action ensures !Enabled(s, a) { NothingMoves(scripts, s, a); }
    } else {
      var a := SomethingMoves(scripts, s);
    }
  }

  // ----- how long a run can be -----

  /** Steps that one message can still cause once it is on its way to the room, among `n`
      connections: for each of them a pick, a push, a receive and a write. */
  function FanOut(n: nat): nat { 4 * n + 2 }

  function HandlerWeight(n: nat, h: Handler): nat {
    match h
    case Upgraded => 4
    case Joined => 3
    case Reading => 2
    case Forwarding(_) => 2 + FanOut(n)
    case Leaving => 1
    case Gone => 0
  }

  function WriterWeight(w: Writer): nat {
    match w
    case NotStarted => 1
    case AtRange => 1
    case Writing(_) => 2
    case Failed(_) => 0
    case Drained => 0
  }

  /** The same weight for every element, `count` times over. */
  function Times(count: nat, weight: nat): nat {
    if count == 0 then 0 else weight + Times(count - 1, weight)
  }

  function ClientWeight(n: nat): Client -> nat {
    (c: Client) => HandlerWeight(n, c.handler) + WriterWeight(c.writer) + 2 * |c.queue|
                   + Times(|c.input|, FanOut(n) + 1)
  }

  function RoomWeight(room: RoomPc): nat {
    match room
    case Idle => 0
    case Ranging(_, todo) => 1 + 4 * |todo|
    case Sending(_, _, todo) => 4 + 4 * |todo|
  }

  function Measure(s: Chat): nat {
    RoomWeight(s.room) + Total(s.clients, ClientWeight(|s.clients|))
  }

  lemma {:induction false} CountBelow(ids: set<nat>, n: nat)
    requires forall i :: i in ids ==> i < n
    ensures |ids| <= n
  {
    if n == 0 {
      assert ids == {};
    } else {
      CountBelow(ids - {n - 1}, n - 1);
      assert ids <= ids - {n - 1} + {n - 1};
      assert |ids| <= |ids - {n - 1} + {n - 1}|;
    }
  }

  /** The weight of one client's next state. */
  lemma ClientStep(s: Chat, i: nat, c: Client)
    requires i < |s.clients|
    ensures Total(s.clients[i := c], ClientWeight(|s.clients|)) + ClientWeight(|s.clients|)(s.clients[i])
         == Total(s.clients, ClientWeight(|s.clients|)) + ClientWeight(|s.clients|)(c)
  {
    TotalUpdate(s.clients, i, c, ClientWeight(|s.clients|));
  }

  lemma ForwardWeight(scripts: seq<seq<string>>, s: Chat, i: nat, stamp: string)
    requires Inv(scripts, s) && Enabled(s, Forward(i, stamp))
    ensures Measure(Apply(s, Forward(i, stamp))) < Measure(s)
  {
    CountBelow(s.members, |s.clients|);
    ClientStep(s, i, Apply(s, Forward(i, stamp)).clients[i]);
  }

  lemma BroadcastStepWeight(scripts: seq<seq<string>>, s: Chat, a: Action)
    requires Inv(scripts, s) && Enabled(s, a) && (a.Pick? || a.Push? || a.EndRange?)
    ensures Measure(Apply(s, a)) < Measure(s)
  {
    match a
    case Pick(i) => assert s.room.todo == s.room.todo - {i} + {i};
    case Push =>
      assert Accounted(s, s.room.current);
      ClientStep(s, s.room.current, Apply(s, a).clients[s.room.current]);
    case EndRange =>
  }

  lemma MembershipWeight(scripts: seq<seq<string>>, s: Chat, a: Action)
    requires Inv(scripts, s) && Enabled(s, a) && (a.Join? || a.Leave?)
    ensures Measure(Apply(s, a)) < Measure(s)
  {
    assert Accounted(s, a.c);
    ClientStep(s, a.c, Apply(s, a).clients[a.c]);
  }

  lemma ClientStepWeight(s: Chat, a: Action)
    requires Enabled(s, a) && !ByRoom(a) && !a.Join? && !a.Leave?
    requires a.StartWriter? ==> s.clients[a.c].writer.NotStarted?
    ensures Measure(Apply(s, a)) < Measure(s)
  {
    ClientStep(s, a.c, Apply(s, a).clients[a.c]);
  }

  lemma StepWeight(scripts: seq<seq<string>>, s: Chat, a: Action)
    requires Inv(scripts, s) && Enabled(s, a)
    ensures Measure(Apply(s, a)) < Measure(s)
  {
    if a.Forward? {
      ForwardWeight(scripts, s, a.c, a.stamp);
    } else if ByRoom(a) {
      BroadcastStepWeight(scripts, s, a);
    } else if a.Join? || a.Leave? {
      MembershipWeight(scripts, s, a);
    } else {
      assert Accounted(s, a.c);
      ClientStepWeight(s, a);
    }
  }

  lemma {:induction false} RunWeight(scripts: seq<seq<string>>, s: Chat, schedule: seq<Action>, s': Chat)
    requires Inv(scripts, s) && Runs(s, schedule, s')
    ensures Measure(s') + |schedule| <= Measure(s)
    decreases schedule
  {
    if schedule == [] {
    } else {
      StepWeight(scripts, s, schedule[0]);
      StepKeepsInv(scripts, s, schedule[0]);
      RunWeight(scripts, Apply(s, schedule[0]), schedule[1..], s');
    }
  }

  function Messages(scripts: seq<seq<string>>): nat {
    if scripts == [] then 0 else Messages(scripts[..|scripts| - 1]) + |scripts[|scripts| - 1]|
  }

  lemma {:induction false} TimesIsProduct(count: nat, weight: nat)
    ensures Times(count, weight) == weight * count
  {
    if count == 0 {
    } else {
      TimesIsProduct(count - 1, weight);
    }
  }

  lemma Distributes(w: nat, x: nat, y: nat)
    ensures w * (x + y) == w * x + w * y
  {
  }

  lemma {:induction false} InitialWeight(scripts: seq<seq<string>>, n: nat, w: nat, k: nat)
    requires k <= |scripts| && w == FanOut(n) + 1
    ensures TotalOfFirst(Init(scripts).clients, ClientWeight(n), k) == 5 * k + w * Messages(scripts[..k])
  {
    if k == 0 {
    } else {
      InitialWeight(scripts, n, w, k - 1);
      var last := |scripts[k - 1]|;
      TimesIsProduct(last, w);
      Distributes(w, Messages(scripts[..k - 1]), last);
      assert scripts[..k][..k - 1] == scripts[..k - 1];
      assert ClientWeight(n)(Init(scripts).clients[k - 1]) == 5 + Times(last, w);
    }
  }

  /** Every run is finite: N connections with M messages in all on their sockets take at most
      5 N + (4 N + 3) M steps, whatever the schedule. */
  lemma RunsAreBounded(scripts: seq<seq<string>>, schedule: seq<Action>, s: Chat)
    requires Runs(Init(scripts), schedule, s)
    ensures |schedule| <= 5 * |scripts| + (4 * |scripts| + 3) * Messages(scripts)
  {
    InitInv(scripts);
    RunWeight(scripts, Init(scripts), schedule, s);
    InitialWeight(scripts, |scripts|, 4 * |scripts| + 3, |scripts|);
    assert scripts[..|scripts|] == scripts;
  }
}
