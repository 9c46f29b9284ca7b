/** Which connections can bring the chat room to a stand: the room can stall exactly when the
    sockets hold at least 258 messages in all, 256 for a full channel, one lost by a failed write,
    and one on which the room blocks. */
module ChatStall {
  import opened Totals
  import opened ChatRoom
  import opened ChatProgress

  // ----- fewer messages never stall the room -----

  /** Messages of this client that the room has not taken yet. */
  function Unheard(c: Client): nat {
    |c.input| + |Pending(c.handler)|
  }

  /** Messages in the log and messages still to come. */
  function AllMessages(s: Chat): nat {
    |s.log| + Total(s.clients, Unheard)
  }

  lemma StepKeepsMessages(s: Chat, a: Action)
    requires Enabled(s, a)
    ensures AllMessages(Apply(s, a)) == AllMessages(s)
  {
    match a
    case Join(i) => TotalUpdate(s.clients, i, Apply(s, a).clients[i], Unheard);
    case StartWriter(i) => TotalUpdate(s.clients, i, Apply(s, a).clients[i], Unheard);
    case ReadOk(i) => TotalUpdate(s.clients, i, Apply(s, a).clients[i], Unheard);
    case ReadErr(i) => TotalUpdate(s.clients, i, Apply(s, a).clients[i], Unheard);
    case Forward(i, _) => TotalUpdate(s.clients, i, Apply(s, a).clients[i], Unheard);
    case Leave(i) =>
      TotalUpdate(s.clients, i, s.clients[i].(handler := Gone, closed := true, leftAt := |s.log|), Unheard);
    case Push =>
      var i := s.room.current;
      TotalUpdate(s.clients, i, s.clients[i].(queue := s.clients[i].queue + [s.room.e]), Unheard);
    case Dequeue(i) => TotalUpdate(s.clients, i, Apply(s, a).clients[i], Unheard);
    case Drain(i) => TotalUpdate(s.clients, i, Apply(s, a).clients[i], Unheard);
    case WriteOk(i) => TotalUpdate(s.clients, i, Apply(s, a).clients[i], Unheard);
    case WriteErr(i) => TotalUpdate(s.clients, i, Apply(s, a).clients[i], Unheard);
    case _ =>
  }

  lemma {:induction false} RunKeepsMessages(s: Chat, schedule: seq<Action>, s': Chat)
    requires Runs(s, schedule, s')
    ensures AllMessages(s') == AllMessages(s)
    decreases schedule
  {
    if schedule == [] {
    } else {
      StepKeepsMessages(s, schedule[0]);
      RunKeepsMessages(Apply(s, schedule[0]), schedule[1..], s');
    }
  }

  lemma {:induction false} InitialMessages(scripts: seq<seq<string>>, k: nat)
    requires k <= |scripts|
    ensures TotalOfFirst(Init(scripts).clients, Unheard, k) == Messages(scripts[..k])
  {
    if k == 0 {
    } else {
      InitialMessages(scripts, k - 1);
      assert scripts[..k][..k - 1] == scripts[..k - 1];
    }
  }

  /** A stalled room has taken at least 258 messages, so there were as many on the sockets. */
  lemma StallNeedsMessages(scripts: seq<seq<string>>, schedule: seq<Action>, s: Chat)
    requires Runs(Init(scripts), schedule, s) && TargetStalled(s)
    ensures |s.log| >= 258
    ensures Messages(scripts) >= 258
  {
    InitInv(scripts);
    RunKeepsInv(scripts, Init(scripts), schedule, s);
    var c := s.clients[s.room.current];
    assert Accounted(s, s.room.current);
    assert |Received(c)| == |c.written| + 1 + MESSAGE_BUFFER_SIZE;
    assert |Slice(s.log, c)| <= |s.log|;
    RunKeepsMessages(Init(scripts), schedule, s);
    InitialMessages(scripts, |scripts|);
    assert scripts[..|scripts|] == scripts;
  }

  // ----- 258 messages can stall the room -----

  ghost predicate Reaches(s: Chat, s': Chat) {
    exists schedule :: Runs(s, schedule, s')
  }

  lemma {:induction false} RunsAppend(s: Chat, first: seq<Action>, mid: Chat, second: seq<Action>, s': Chat)
    requires Runs(s, first, mid) && Runs(mid, second, s')
    ensures Runs(s, first + second, s')
    decreases first
  {
    if first == [] {
      assert first + second == second;
    } else {
      assert (first + second)[1..] == first[1..] + second;
      RunsAppend(Apply(s, first[0]), first[1..], mid, second, s');
    }
  }

  lemma ReachesFurther(s: Chat, mid: Chat, s': Chat)
    requires Reaches(s, mid) && Reaches(mid, s')
    ensures Reaches(s, s')
  {
    var first :| Runs(s, first, mid);
    var second :| Runs(mid, second, s');
    RunsAppend(s, first, mid, second, s');
  }

  lemma ReachesStep(s: Chat, mid: Chat, a: Action)
    requires Reaches(s, mid) && Enabled(mid, a)
    ensures Reaches(s, Apply(mid, a))
  {
    assert Runs(Apply(mid, a), [][..], Apply(mid, a));
    assert [a][1..] == [];
    assert Runs(mid, [a], Apply(mid, a));
    ReachesFurther(s, mid, Apply(mid, a));
  }

  lemma ReachesItself(s: Chat)
    ensures Reaches(s, s)
  {
    assert Runs(s, [], s);
  }

  /** Client 0 after `r` broadcasts: its writer failed on the first message, and all the others
      are in its channel. */
  predicate Victim(c: Client, r: nat) {
    && c.handler.Reading? && !c.closed
    && if r == 0 then c.writer.AtRange? && c.queue == []
       else c.writer.Failed? && |c.queue| == r - 1
  }

  /** A reader whose writer keeps up. */
  predicate Healthy(c: Client) {
    c.handler.Reading? && !c.closed && c.writer.AtRange? && c.queue == []
  }

  /** Between two broadcasts: `r` are over, client 0 is the victim, client `i` is speaking, those
      between them have left, and those behind `i` have not joined yet. */
  ghost predicate Feeding(scripts: seq<seq<string>>, s: Chat, i: nat, r: nat) {
    && |s.clients| == |scripts| && i < |s.clients|
    && s.room.Idle? && !s.panicked
    && s.members == {0, i}
    && Victim(s.clients[0], r)
    && (i > 0 ==> Healthy(s.clients[i]))
    && (forall j :: i < j < |s.clients| ==> s.clients[j] == NewClient(scripts[j]))
  }

  /** The speaker's next message is taken by the room. */
  lemma SpeakOnce(scripts: seq<seq<string>>, s: Chat, i: nat, r: nat) returns (s': Chat)
    requires Feeding(scripts, s, i, r) && s.clients[i].input != []
    ensures Reaches(s, s')
    ensures s'.room == Ranging(Entry(i, "", s.clients[i].input[0]), {0, i})
    ensures s' == s.(room := s'.room, log := s'.log, clients := s'.clients)
    ensures s'.clients == s.clients[i := s.clients[i].(input := s.clients[i].input[1..])]
  {
    var s1 := Apply(s, ReadOk(i));
    ReachesItself(s);
    ReachesStep(s, s, ReadOk(i));
    s' := Apply(s1, Forward(i, ""));
    ReachesStep(s, s1, Forward(i, ""));
  }

  /** The victim is sent the message: it fails on the first one, and queues any other. */
  lemma FeedVictim(s: Chat, others: set<nat>, r: nat) returns (s': Chat)
    requires s.room.Ranging? && s.room.todo == {0} + others && 0 !in others && !s.panicked
    requires |s.clients| > 0 && Victim(s.clients[0], r) && r <= MESSAGE_BUFFER_SIZE
    ensures Reaches(s, s')
    ensures s'.room == Ranging(s.room.e, others)
    ensures s' == s.(room := s'.room, clients := s'.clients)
    ensures |s'.clients| == |s.clients| && Victim(s'.clients[0], r + 1)
    ensures s'.clients[0].input == s.clients[0].input
    ensures forall j :: 0 < j < |s.clients| ==> s'.clients[j] == s.clients[j]
  {
    ReachesItself(s);
    ReachesStep(s, s, Pick(0));
    var s1 := Apply(s, Pick(0));
    assert s1.room.todo == others;
    ReachesStep(s, s1, Push);
    s' := Apply(s1, Push);
    if r == 0 {
      ReachesStep(s, s', Dequeue(0));
      s' := Apply(s', Dequeue(0));
      ReachesStep(s, s', WriteErr(0));
      s' := Apply(s', WriteErr(0));
    }
  }

  /** A healthy member is sent the message and writes it. */
  lemma FeedHealthy(s: Chat, i: nat) returns (s': Chat)
    requires s.room.Ranging? && s.room.todo == {i} && !s.panicked
    requires i < |s.clients| && Healthy(s.clients[i])
    ensures Reaches(s, s')
    ensures s'.room == Ranging(s.room.e, {})
    ensures s' == s.(room := s'.room, clients := s'.clients)
    ensures |s'.clients| == |s.clients| && s'.clients == s.clients[i := s'.clients[i]]
    ensures Healthy(s'.clients[i]) && s'.clients[i].input == s.clients[i].input
  {
    ReachesItself(s);
    ReachesStep(s, s, Pick(i));
    var s1 := Apply(s, Pick(i));
    assert s1.room.todo == {};
    ReachesStep(s, s1, Push);
    var s2 := Apply(s1, Push);
    ReachesStep(s, s2, Dequeue(i));
    var s3 := Apply(s2, Dequeue(i));
    ReachesStep(s, s3, WriteOk(i));
    s' := Apply(s3, WriteOk(i));
  }

  /** One broadcast from the speaker. */
  lemma FeedOnce(scripts: seq<seq<string>>, s: Chat, i: nat, r: nat) returns (s': Chat)
    requires Feeding(scripts, s, i, r) && s.clients[i].input != [] && r <= MESSAGE_BUFFER_SIZE
    ensures Reaches(s, s') && Feeding(scripts, s', i, r + 1)
    ensures s'.clients[i].input == s.clients[i].input[1..]
  {
    var s1 := SpeakOnce(scripts, s, i, r);
    var others := if i == 0 then {} else {i};
    assert s1.room.todo == {0} + others;
    var s2 := FeedVictim(s1, others, r);
    ReachesFurther(s, s1, s2);
    var s3 := s2;
    if i > 0 {
      s3 := FeedHealthy(s2, i);
      ReachesFurther(s, s2, s3);
    }
    ReachesStep(s, s3, EndRange);
    s' := Apply(s3, EndRange);
  }

  /** With the victim's channel full, one more message stalls the room. */
  lemma LastMessageStalls(scripts: seq<seq<string>>, s: Chat, i: nat) returns (s': Chat)
    requires Feeding(scripts, s, i, MESSAGE_BUFFER_SIZE + 1) && s.clients[i].input != []
    ensures Reaches(s, s') && TargetStalled(s')
  {
    var s1 := SpeakOnce(scripts, s, i, MESSAGE_BUFFER_SIZE + 1);
    ReachesStep(s, s1, Pick(0));
    s' := Apply(s1, Pick(0));
  }

  /** The next connection joins; the speaker before it, unless it is the victim, has left. */
  lemma NextSpeaker(scripts: seq<seq<string>>, s: Chat, i: nat, r: nat) returns (s': Chat)
    requires Feeding(scripts, s, i, r) && i + 1 < |s.clients|
    ensures Reaches(s, s') && Feeding(scripts, s', i + 1, r)
    ensures s'.clients[i + 1].input == scripts[i + 1]
  {
    ReachesItself(s);
    s' := s;
    if i > 0 {
      ReachesStep(s, s', ReadErr(i));
      s' := Apply(s', ReadErr(i));
      ReachesStep(s, s', Leave(i));
      s' := Apply(s', Leave(i));
    }
    assert s'.members == {0};
    ReachesStep(s, s', Join(i + 1));
    s' := Apply(s', Join(i + 1));
    ReachesStep(s, s', StartWriter(i + 1));
    s' := Apply(s', StartWriter(i + 1));
  }

  /** The messages of the connections behind `i`. */
  function MessagesBehind(scripts: seq<seq<string>>, i: nat): nat
    requires i < |scripts|
    decreases |scripts| - i
  {
    if i + 1 == |scripts| then 0 else |scripts[i + 1]| + MessagesBehind(scripts, i + 1)
  }

  lemma {:induction false} MessagesSplit(scripts: seq<seq<string>>, i: nat)
    requires i < |scripts|
    ensures Messages(scripts) == Messages(scripts[..i + 1]) + MessagesBehind(scripts, i)
    decreases |scripts| - i
  {
    if i + 1 == |scripts| {
      assert scripts[..i + 1] == scripts;
    } else {
      MessagesSplit(scripts, i + 1);
      assert scripts[..i + 2][..i + 1] == scripts[..i + 1];
    }
  }

  lemma {:induction false} FeedOn(scripts: seq<seq<string>>, s: Chat, i: nat, r: nat) returns (s': Chat)
    requires Feeding(scripts, s, i, r) && r <= MESSAGE_BUFFER_SIZE + 1
    requires r + |s.clients[i].input| + MessagesBehind(scripts, i) >= MESSAGE_BUFFER_SIZE + 2
    ensures Reaches(s, s') && TargetStalled(s')
    decreases |scripts| - i, |s.clients[i].input|
  {
    if s.clients[i].input == [] {
      var next := NextSpeaker(scripts, s, i, r);
      s' := FeedOn(scripts, next, i + 1, r);
      ReachesFurther(s, next, s');
    } else if r == MESSAGE_BUFFER_SIZE + 1 {
      s' := LastMessageStalls(scripts, s, i);
    } else {
      var next := FeedOnce(scripts, s, i, r);
      s' := FeedOn(scripts, next, i, r + 1);
      ReachesFurther(s, next, s');
    }
  }

  lemma MessagesStall(scripts: seq<seq<string>>) returns (s: Chat)
    requires Messages(scripts) >= MESSAGE_BUFFER_SIZE + 2
    ensures Reaches(Init(scripts), s) && TargetStalled(s)
  {
    var s0 := Init(scripts);
    ReachesItself(s0);
    ReachesStep(s0, s0, Join(0));
    var s1 := Apply(s0, Join(0));
    ReachesStep(s0, s1, StartWriter(0));
    var s2 := Apply(s1, StartWriter(0));
    MessagesSplit(scripts, 0);
    assert scripts[..1][..0] == [] && Messages(scripts[..1]) == |scripts[0]|;
    assert Feeding(scripts, s2, 0, 0);
    s := FeedOn(scripts, s2, 0, 0);
    ReachesFurther(s0, s2, s);
  }

  /** The room can come to stand on a client whose writer has failed if and only if there are at
      least 258 messages on all the sockets together, however they are distributed. */
  lemma StallsExactlyWhen(scripts: seq<seq<string>>)
    ensures (exists s :: Reaches(Init(scripts), s) && TargetStalled(s))
            <==> Messages(scripts) >= 258
  {
    if s :| Reaches(Init(scripts), s) && TargetStalled(s) {
      var schedule :| Runs(Init(scripts), schedule, s);
      StallNeedsMessages(scripts, schedule, s);
    }
    if Messages(scripts) >= MESSAGE_BUFFER_SIZE + 2 {
      var s := MessagesStall(scripts);
    }
  }

  /** A stalled room ends up with all the others waiting for it: the run goes on until it is
      jammed, and never gets everybody done. */
  lemma {:induction false} StalledEndsJammed(scripts: seq<seq<string>>, s: Chat) returns (s': Chat)
    requires Inv(scripts, s) && TargetStalled(s)
    ensures Reaches(s, s') && Jammed(s')
    decreases Measure(s)
  {
    if Jammed(s) {
      ReachesItself(s);
      s' := s;
    } else {
      var a := SomethingMoves(scripts, s);
      var next := Apply(s, a);
      StepKeepsInv(scripts, s, a);
      StepWeight(scripts, s, a);
      ReachesItself(s);
      ReachesStep(s, s, a);
      var schedule :| Runs(s, schedule, next);
      StalledForGood(scripts, s, schedule, next);
      s' := StalledEndsJammed(scripts, next);
      ReachesFurther(s, next, s');
    }
  }
}
