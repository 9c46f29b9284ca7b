/** The chat room of AnonymousChat/chat (room.go, client.go) as a transition system: one room
    goroutine, and for every connection one handler goroutine, which becomes the reader, and one
    writer goroutine. A rendezvous on an unbuffered channel is one joint step. */
module ChatRoom {

  const MESSAGE_BUFFER_SIZE: nat := 256

  /** A broadcast message: the stamped text, and the connection that sent it. */
  datatype Entry = Entry(sender: nat, stamp: string, body: string)

  datatype RoomPc =
    | Idle                                              // in the select
    | Ranging(e: Entry, todo: set<nat>)                 // about to take the next range key
    | Sending(e: Entry, current: nat, todo: set<nat>)   // blocked on one member's send channel

  datatype Handler =
    | Upgraded                  // about to send itself on join
    | Joined                    // about to start its writer
    | Reading                   // in ReadMessage
    | Forwarding(body: string)  // about to send a message on forward
    | Leaving                   // read has returned, about to send itself on leave
    | Gone

  datatype Writer =
    | NotStarted
    | AtRange             // about to receive from its send channel
    | Writing(e: Entry)   // in WriteMessage
    | Failed(e: Entry)    // returned because writing `e` failed
    | Drained             // returned because the channel is closed and empty

  /** `written` is what the writer has put on the socket; `joinedAt` and `leftAt` record the
      length of the room log when the room took this client from join and from leave. */
  datatype Client = Client(handler: Handler, input: seq<string>, writer: Writer,
                           queue: seq<Entry>, closed: bool, written: seq<Entry>,
                           joinedAt: nat, leftAt: nat)

  /** `panicked` is set by closing a closed channel or sending on one; `log` records every
      message the room has taken from forward. */
  datatype Chat = Chat(room: RoomPc, members: set<nat>, clients: seq<Client>,
                       log: seq<Entry>, panicked: bool)

  datatype Action =
    | Join(c: nat)
    | StartWriter(c: nat)
    | ReadOk(c: nat)
    | ReadErr(c: nat)
    | Forward(c: nat, stamp: string)
    | Leave(c: nat)
    | Pick(c: nat)
    | Push
    | EndRange
    | Dequeue(c: nat)
    | Drain(c: nat)
    | WriteOk(c: nat)
    | WriteErr(c: nat)

  function NewClient(script: seq<string>): Client {
    Client(Upgraded, script, NotStarted, [], false, [], 0, 0)
  }

  /** A new room, and one connection for each script of incoming messages. */
  function Init(scripts: seq<seq<string>>): Chat {
    Chat(Idle, {}, seq(|scripts|, i requires 0 <= i < |scripts| => NewClient(scripts[i])), [], false)
  }

  predicate Enabled(s: Chat, a: Action) {
    match a
    case Join(c) => c < |s.clients| && s.room.Idle? && s.clients[c].handler.Upgraded?
    case StartWriter(c) => c < |s.clients| && s.clients[c].handler.Joined?
    case ReadOk(c) => c < |s.clients| && s.clients[c].handler.Reading? && s.clients[c].input != []
    case ReadErr(c) => c < |s.clients| && s.clients[c].handler.Reading?
    case Forward(c, _) => c < |s.clients| && s.room.Idle? && s.clients[c].handler.Forwarding?
    case Leave(c) => c < |s.clients| && s.room.Idle? && s.clients[c].handler.Leaving?
    case Pick(c) => c < |s.clients| && s.room.Ranging? && c in s.room.todo
    case Push =>
      && s.room.Sending? && s.room.current < |s.clients|
      && var c := s.clients[s.room.current];
         c.closed || |c.queue| < MESSAGE_BUFFER_SIZE
    case EndRange => s.room.Ranging? && s.room.todo == {}
    case Dequeue(c) => c < |s.clients| && s.clients[c].writer.AtRange? && s.clients[c].queue != []
    case Drain(c) =>
      c < |s.clients| && s.clients[c].writer.AtRange? && s.clients[c].queue == [] && s.clients[c].closed
    case WriteOk(c) => c < |s.clients| && s.clients[c].writer.Writing?
    case WriteErr(c) => c < |s.clients| && s.clients[c].writer.Writing?
  }

  function With(s: Chat, i: nat, c: Client): Chat
    requires i < |s.clients|
  {
    s.(clients := s.clients[i := c])
  }

  function Apply(s: Chat, a: Action): Chat
    requires Enabled(s, a)
  {
    match a
    case Join(i) =>
      With(s, i, s.clients[i].(handler := Joined, joinedAt := |s.log|)).(members := s.members + {i})
    case StartWriter(i) =>
      With(s, i, s.clients[i].(handler := Reading, writer := AtRange))
    case ReadOk(i) =>
      var c := s.clients[i];
      With(s, i, c.(handler := Forwarding(c.input[0]), input := c.input[1..]))
    case ReadErr(i) =>
      With(s, i, s.clients[i].(handler := Leaving))
    case Forward(i, stamp) =>
      var e := Entry(i, stamp, s.clients[i].handler.body);
      With(s, i, s.clients[i].(handler := Reading)).(log := s.log + [e], room := Ranging(e, s.members))
    case Leave(i) =>
      var c := s.clients[i];
      if c.closed then s.(panicked := true)
      else With(s, i, c.(handler := Gone, closed := true, leftAt := |s.log|)).(members := s.members - {i})
    case Pick(i) =>
      s.(room := Sending(s.room.e, i, s.room.todo - {i}))
    case Push =>
      var c := s.clients[s.room.current];
      if c.closed then s.(panicked := true)
      else With(s, s.room.current, c.(queue := c.queue + [s.room.e])).(room := Ranging(s.room.e, s.room.todo))
    case EndRange =>
      s.(room := Idle)
    case Dequeue(i) =>
      var c := s.clients[i];
      With(s, i, c.(writer := Writing(c.queue[0]), queue := c.queue[1..]))
    case Drain(i) =>
      With(s, i, s.clients[i].(writer := Drained))
    case WriteOk(i) =>
      var c := s.clients[i];
      With(s, i, c.(writer := AtRange, written := c.written + [c.writer.e]))
    case WriteErr(i) =>
      With(s, i, s.clients[i].(writer := Failed(s.clients[i].writer.e)))
  }

  predicate Runs(s: Chat, schedule: seq<Action>, s': Chat)
    decreases schedule
  {
    if schedule == [] then s == s'
    else Enabled(s, schedule[0]) && Runs(Apply(s, schedule[0]), schedule[1..], s')
  }

  // ----- the accounts of one client -----

  /** The message in the writer's hands: being written, or lost by the failed write. */
  function Held(w: Writer): seq<Entry> {
    match w
    case Writing(e) => [e]
    case Failed(e) => [e]
    case _ => []
  }

  /** Everything the room has ever pushed into this client's channel. */
  function Received(c: Client): seq<Entry> {
    c.written + Held(c.writer) + c.queue
  }

  /** What the broadcast under way has still to push to client `i`. */
  function Owed(room: RoomPc, i: nat): seq<Entry> {
    match room
    case Idle => []
    case Ranging(e, todo) => if i in todo then [e] else []
    case Sending(e, current, todo) => if i == current || i in todo then [e] else []
  }

  predicate HasJoined(h: Handler) { !h.Upgraded? }

  predicate InRoom(h: Handler) { h.Joined? || h.Reading? || h.Forwarding? || h.Leaving? }

  /** The part of the log between this client's join and its leave, or up to now. */
  function Slice(log: seq<Entry>, c: Client): seq<Entry>
    requires HasJoined(c.handler) ==> c.joinedAt <= (if c.closed then c.leftAt else |log|) <= |log|
  {
    if !HasJoined(c.handler) then []
    else log[c.joinedAt..if c.closed then c.leftAt else |log|]
  }

  /** The messages of one sender, in log order. */
  function BodiesOf(log: seq<Entry>, i: nat): seq<string> {
    if log == [] then []
    else
      var last := log[|log| - 1];
      BodiesOf(log[..|log| - 1], i) + (if last.sender == i then [last.body] else [])
  }

  /** The message that this client's reader has taken off the socket and not yet handed over. */
  function Pending(h: Handler): seq<string> {
    if h.Forwarding? then [h.body] else []
  }

  // ----- what every step keeps -----

  ghost predicate StagesAgree(s: Chat, i: nat)
    requires i < |s.clients|
  {
    var c := s.clients[i];
    && (i in s.members <==> InRoom(c.handler))
    && (c.closed <==> c.handler.Gone?)
    && (c.writer.NotStarted? <==> c.handler.Upgraded? || c.handler.Joined?)
    && (c.writer.Drained? ==> c.closed && c.queue == [])
    && |c.queue| <= MESSAGE_BUFFER_SIZE
    && (HasJoined(c.handler) ==> c.joinedAt <= (if c.closed then c.leftAt else |s.log|) <= |s.log|)
  }

  ghost predicate Accounted(s: Chat, i: nat)
    requires i < |s.clients|
  {
    StagesAgree(s, i) && Received(s.clients[i]) + Owed(s.room, i) == Slice(s.log, s.clients[i])
  }

  ghost predicate InputAccounted(script: seq<string>, s: Chat, i: nat)
    requires i < |s.clients|
  {
    script == BodiesOf(s.log, i) + Pending(s.clients[i].handler) + s.clients[i].input
  }

  ghost predicate RoomInStep(s: Chat) {
    && !s.panicked
    && (forall i :: i in s.members ==> i < |s.clients|)
    && (s.room.Ranging? ==> s.room.todo <= s.members)
    && (s.room.Sending? ==>
          s.room.todo <= s.members && s.room.current in s.members && s.room.current !in s.room.todo)
    && (!s.room.Idle? ==> s.log != [] && s.log[|s.log| - 1] == s.room.e)
  }

  ghost predicate Inv(scripts: seq<seq<string>>, s: Chat) {
    && |s.clients| == |scripts|
    && RoomInStep(s)
    && (forall i :: 0 <= i < |s.clients| ==> Accounted(s, i))
    && (forall i :: 0 <= i < |s.clients| ==> InputAccounted(scripts[i], s, i))
  }

  lemma InitInv(scripts: seq<seq<string>>)
    ensures Inv(scripts, Init(scripts))
  {
  }

  /** The room's own steps. */
  predicate ByRoom(a: Action) { a.Forward? || a.Pick? || a.Push? || a.EndRange? }

  lemma StepKeepsRoom(scripts: seq<seq<string>>, s: Chat, a: Action)
    requires Inv(scripts, s) && Enabled(s, a)
    ensures RoomInStep(Apply(s, a)) && |Apply(s, a).clients| == |s.clients|
  {
    match a
    case Leave(i) => assert Accounted(s, i);
    case Push => assert Accounted(s, s.room.current);
    case _ =>
  }

  /** A new log entry extends the slice of every member and of nobody else. */
  lemma ForwardKeepsAccounts(s: Chat, a: Action, i: nat)
    requires RoomInStep(s) && Enabled(s, a) && a.Forward?
    requires i < |s.clients| && Accounted(s, i)
    ensures Accounted(Apply(s, a), i)
  {
    var c, e := s.clients[i], Entry(a.c, a.stamp, s.clients[a.c].handler.body);
    if c.closed {
      assert (s.log + [e])[c.joinedAt..c.leftAt] == s.log[c.joinedAt..c.leftAt];
    } else if HasJoined(c.handler) {
      assert (s.log + [e])[c.joinedAt..|s.log| + 1] == s.log[c.joinedAt..|s.log|] + [e];
    }
  }

  lemma BroadcastKeepsAccounts(s: Chat, a: Action, i: nat)
    requires RoomInStep(s) && Enabled(s, a) && (a.Pick? || a.Push? || a.EndRange?)
    requires i < |s.clients| && Accounted(s, i)
    ensures Accounted(Apply(s, a), i)
  {
    if a.Push? && i == s.room.current {
      var c, e := s.clients[i], s.room.e;
      assert (c.written + Held(c.writer) + c.queue) + [e] == c.written + Held(c.writer) + (c.queue + [e]);
    }
  }

  lemma HandlerKeepsAccounts(s: Chat, a: Action, i: nat)
    requires RoomInStep(s) && Enabled(s, a)
    requires a.Join? || a.StartWriter? || a.ReadOk? || a.ReadErr? || a.Leave?
    requires i < |s.clients| && Accounted(s, i)
    ensures Accounted(Apply(s, a), i)
  {
  }

  /** Moving a message along the queue, the writer's hands and the socket loses nothing. */
  lemma WriterKeepsReceived(c: Client)
    requires c.writer.AtRange? && c.queue != []
    ensures Received(c.(writer := Writing(c.queue[0]), queue := c.queue[1..])) == Received(c)
  {
    assert c.queue == [c.queue[0]] + c.queue[1..];
  }

  lemma DequeueKeepsAccounts(s: Chat, k: nat, i: nat)
    requires Enabled(s, Dequeue(k)) && i < |s.clients| && Accounted(s, i)
    ensures Accounted(Apply(s, Dequeue(k)), i)
  {
    WriterKeepsReceived(s.clients[k]);
  }

  lemma WriteKeepsAccounts(s: Chat, a: Action, i: nat)
    requires Enabled(s, a) && (a.Drain? || a.WriteOk? || a.WriteErr?)
    requires i < |s.clients| && Accounted(s, i)
    ensures Accounted(Apply(s, a), i)
  {
    if a.WriteOk? && i == a.c {
      assert Received(Apply(s, a).clients[i]) == Received(s.clients[i]);
    }
  }

  lemma StepKeepsAccounts(s: Chat, a: Action, i: nat)
    requires RoomInStep(s) && Enabled(s, a)
    requires i < |s.clients| && Accounted(s, i)
    ensures |Apply(s, a).clients| == |s.clients| && Accounted(Apply(s, a), i)
  {
    if a.Forward? {
      ForwardKeepsAccounts(s, a, i);
    } else if ByRoom(a) {
      BroadcastKeepsAccounts(s, a, i);
    } else if a.Dequeue? {
      DequeueKeepsAccounts(s, a.c, i);
    } else if a.Drain? || a.WriteOk? || a.WriteErr? {
      WriteKeepsAccounts(s, a, i);
    } else {
      HandlerKeepsAccounts(s, a, i);
    }
  }

  lemma StepKeepsInput(script: seq<string>, s: Chat, a: Action, i: nat)
    requires Enabled(s, a) && i < |s.clients| && InputAccounted(script, s, i)
    ensures |Apply(s, a).clients| == |s.clients| && InputAccounted(script, Apply(s, a), i)
  {
    var log' := Apply(s, a).log;
    if a.Forward? {
      assert log'[..|log'| - 1] == s.log;
    }
  }

  lemma StepKeepsInv(scripts: seq<seq<string>>, s: Chat, a: Action)
    requires Inv(scripts, s) && Enabled(s, a)
    ensures Inv(scripts, Apply(s, a))
  {
    StepKeepsRoom(scripts, s, a);
    forall i | 0 <= i < |s.clients|
      ensures Accounted(Apply(s, a), i) && InputAccounted(scripts[i], Apply(s, a), i)
    {
      StepKeepsAccounts(s, a, i);
      StepKeepsInput(scripts[i], s, a, i);
    }
  }

  lemma {:induction false} RunKeepsInv(scripts: seq<seq<string>>, s: Chat, schedule: seq<Action>, s': Chat)
    requires Inv(scripts, s) && Runs(s, schedule, s')
    ensures Inv(scripts, s')
    decreases schedule
  {
    if schedule == [] {
    } else {
      StepKeepsInv(scripts, s, schedule[0]);
      RunKeepsInv(scripts, Apply(s, schedule[0]), schedule[1..], s');
    }
  }

  // ----- delivery -----

  lemma AccountsGivePrefix(s: Chat, i: nat)
    requires RoomInStep(s) && i < |s.clients| && Accounted(s, i)
    ensures s.clients[i].written <= Slice(s.log, s.clients[i])
    ensures s.clients[i].closed ==> Owed(s.room, i) == []
    ensures s.clients[i].handler.Gone? && (s.clients[i].writer.Failed? || s.clients[i].writer.Drained?) ==>
              (s.clients[i].written == Slice(s.log, s.clients[i]) <==> s.clients[i].writer.Drained?)
  {
    var c := s.clients[i];
    var rest := Held(c.writer) + c.queue + Owed(s.room, i);
    assert c.written + rest == Received(c) + Owed(s.room, i);
  }

  /** What a client's writer has put on its socket is a prefix of the one room log cut at the
      client's join and leave; with what its writer holds, its queue and what the broadcast
      under way still owes it, it is the whole of that slice; and the queue fits its channel. */
  lemma TotalOrderDelivery(scripts: seq<seq<string>>, schedule: seq<Action>, s: Chat, i: nat)
    requires Runs(Init(scripts), schedule, s) && i < |scripts|
    ensures |s.clients| == |scripts|
    ensures var c := s.clients[i];
            && (HasJoined(c.handler) ==> c.joinedAt <= (if c.closed then c.leftAt else |s.log|) <= |s.log|)
            && c.written + Held(c.writer) + c.queue + Owed(s.room, i) == Slice(s.log, c)
            && c.written <= Slice(s.log, c)
            && |c.queue| <= 256
  {
    InitInv(scripts);
    RunKeepsInv(scripts, Init(scripts), schedule, s);
    AccountsGivePrefix(s, i);
  }

  /** A client that has left, and whose writer has returned, was written the whole of its slice
      if and only if its writer drained the channel; a failed write always costs it something. */
  lemma CompleteUnlessWriteFailed(scripts: seq<seq<string>>, schedule: seq<Action>, s: Chat, i: nat)
    requires Runs(Init(scripts), schedule, s) && |s.clients| == |scripts| && i < |scripts|
    requires s.clients[i].handler.Gone? && (s.clients[i].writer.Failed? || s.clients[i].writer.Drained?)
    ensures s.clients[i].joinedAt <= s.clients[i].leftAt <= |s.log|
    ensures s.clients[i].written == s.log[s.clients[i].joinedAt..s.clients[i].leftAt]
            <==> s.clients[i].writer.Drained?
  {
    InitInv(scripts);
    RunKeepsInv(scripts, Init(scripts), schedule, s);
    AccountsGivePrefix(s, i);
  }

  lemma WrittenFromLog(scripts: seq<seq<string>>, schedule: seq<Action>, s: Chat, i: nat, p: nat)
    requires Runs(Init(scripts), schedule, s) && |s.clients| == |scripts| && i < |scripts|
    requires p < |s.clients[i].written|
    ensures s.clients[i].joinedAt + p < |s.log|
    ensures s.clients[i].written[p] == s.log[s.clients[i].joinedAt + p]
  {
    TotalOrderDelivery(scripts, schedule, s, i);
    assert s.clients[i].written[p] == Slice(s.log, s.clients[i])[p];
  }

  /** Any two clients read the same message at the same place of the log, so they agree on the
      order of all the messages that both of them got. */
  lemma ClientsAgreeOnOrder(scripts: seq<seq<string>>, schedule: seq<Action>, s: Chat, i: nat, j: nat)
    requires Runs(Init(scripts), schedule, s) && i < |scripts| && j < |scripts|
    ensures |s.clients| == |scripts|
    ensures var a, b := s.clients[i], s.clients[j];
            forall p, q :: 0 <= p < |a.written| && 0 <= q < |b.written| && a.joinedAt + p == b.joinedAt + q
              ==> a.written[p] == b.written[q]
  {
    TotalOrderDelivery(scripts, schedule, s, i);
    var a, b := s.clients[i], s.clients[j];
    forall p, q | 0 <= p < |a.written| && 0 <= q < |b.written| && a.joinedAt + p == b.joinedAt + q
      ensures a.written[p] == b.written[q]
    {
      WrittenFromLog(scripts, schedule, s, i, p);
      WrittenFromLog(scripts, schedule, s, j, q);
    }
  }

  /** The messages of one sender are in the log in the order it sent them, without loss or
      repetition: the log's share of them, the one waiting on forward if any, and the unread
      input make up exactly what was on the socket. */
  lemma PerSenderOrder(scripts: seq<seq<string>>, schedule: seq<Action>, s: Chat, i: nat)
    requires Runs(Init(scripts), schedule, s) && i < |scripts|
    ensures |s.clients| == |scripts|
    ensures BodiesOf(s.log, i) + Pending(s.clients[i].handler) + s.clients[i].input == scripts[i]
    ensures BodiesOf(s.log, i) <= scripts[i]
  {
    InitInv(scripts);
    RunKeepsInv(scripts, Init(scripts), schedule, s);
    assert InputAccounted(scripts[i], s, i);
    PrefixOfSum(BodiesOf(s.log, i), Pending(s.clients[i].handler), s.clients[i].input);
  }

  lemma PrefixOfSum<T>(a: seq<T>, b: seq<T>, c: seq<T>)
    ensures a <= a + b + c
  {
  }

  /** No run closes a closed channel or sends on one: the room knows a client exactly from the
      receive of its join to the receive of its leave, and its channel is closed exactly from the
      receive of its leave on; so what the room is sending on is open. */
  lemma NoChannelPanic(scripts: seq<seq<string>>, schedule: seq<Action>, s: Chat)
    requires Runs(Init(scripts), schedule, s)
    ensures !s.panicked && |s.clients| == |scripts|
    ensures forall i :: 0 <= i < |s.clients| ==>
              && (i in s.members <==> InRoom(s.clients[i].handler))
              && (s.clients[i].closed <==> s.clients[i].handler.Gone?)
    ensures s.room.Sending? ==> s.room.current < |s.clients| && !s.clients[s.room.current].closed
  {
    InitInv(scripts);
    RunKeepsInv(scripts, Init(scripts), schedule, s);
    forall i | 0 <= i < |s.clients|
      ensures i in s.members <==> InRoom(s.clients[i].handler)
      ensures s.clients[i].closed <==> s.clients[i].handler.Gone?
    {
      assert Accounted(s, i);
    }
  }

  // ----- one broadcast -----

  /** Up to the end of the broadcast under way. */
  predicate WithinBroadcast(schedule: seq<Action>) {
    schedule != [] && schedule[|schedule| - 1].EndRange?
    && forall k :: 0 <= k < |schedule| - 1 ==> !schedule[k].EndRange?
  }

  /** The join and leave positions of client `i`, and whether its channel is closed. */
  function Window(s: Chat, i: nat): (nat, nat, bool, bool)
    requires i < |s.clients|
  {
    var c := s.clients[i];
    (c.joinedAt, c.leftAt, c.closed, HasJoined(c.handler))
  }

  /** While the room broadcasts, membership, log and everybody's slice stand still. */
  lemma {:induction false} BroadcastFreezes(s: Chat, schedule: seq<Action>, s': Chat)
    requires !s.room.Idle? && WithinBroadcast(schedule) && Runs(s, schedule, s')
    requires !s'.panicked
    ensures s'.room.Idle? && s'.members == s.members && s'.log == s.log && |s'.clients| == |s.clients|
    ensures forall i :: 0 <= i < |s.clients| ==> Window(s', i) == Window(s, i)
    decreases schedule
  {
    var next := Apply(s, schedule[0]);
    if schedule[0].EndRange? {
      assert |schedule| == 1;
      assert schedule[1..] == [];
      assert Runs(next, [], s');
    } else {
      assert forall i :: 0 <= i < |s.clients| ==> Window(next, i) == Window(s, i);
      BroadcastFreezes(next, schedule[1..], s');
    }
  }

  /** Exactly-once fan-out: when the broadcast of a message ends, whatever the order of the map
      range and whatever the writers and readers did meanwhile, every client that was a member
      when the room took the message has been sent it exactly once more than before, nobody else
      has been sent anything, and membership is what it was. */
  lemma FanOutExactlyOnce(scripts: seq<seq<string>>, before: seq<Action>, s: Chat,
                          c: nat, stamp: string, broadcast: seq<Action>, s': Chat)
    requires Runs(Init(scripts), before, s)
    requires Enabled(s, Forward(c, stamp)) && WithinBroadcast(broadcast)
    requires Runs(Apply(s, Forward(c, stamp)), broadcast, s')
    ensures s'.room.Idle? && s'.members == s.members && |s'.clients| == |s.clients|
    ensures s'.log == s.log + [Entry(c, stamp, s.clients[c].handler.body)]
    ensures forall i :: 0 <= i < |s.clients| ==>
              Received(s'.clients[i])
              == Received(s.clients[i])
                 + (if i in s.members then [Entry(c, stamp, s.clients[c].handler.body)] else [])
  {
    var mid, e := Apply(s, Forward(c, stamp)), Entry(c, stamp, s.clients[c].handler.body);
    InitInv(scripts);
    RunKeepsInv(scripts, Init(scripts), before, s);
    StepKeepsInv(scripts, s, Forward(c, stamp));
    RunKeepsInv(scripts, mid, broadcast, s');
    BroadcastFreezes(mid, broadcast, s');
    forall i | 0 <= i < |s.clients|
      ensures Received(s'.clients[i]) == Received(s.clients[i]) + (if i in s.members then [e] else [])
    {
      assert Accounted(s, i) && Accounted(mid, i) && Accounted(s', i) && Window(s', i) == Window(mid, i);
      assert Received(s.clients[i]) == Received(mid.clients[i]);
    }
  }

  /** The steps of a range loop that visits the members in this order. */
  function RangeSteps(order: seq<nat>): seq<Action> {
    if order == [] then [EndRange] else [Pick(order[0]), Push] + RangeSteps(order[1..])
  }

  /** The clients after `e` was pushed to those in `targets`. */
  function Served(clients: seq<Client>, targets: set<nat>, e: Entry): seq<Client> {
    seq(|clients|, i requires 0 <= i < |clients| =>
      if i in targets then clients[i].(queue := clients[i].queue + [e]) else clients[i])
  }

  lemma PickAndPush(s: Chat, i: nat, rest: seq<Action>, s': Chat)
    requires s.room.Ranging? && i in s.room.todo && i < |s.clients|
    requires !s.clients[i].closed && |s.clients[i].queue| < 256
    requires Runs(s.(room := Ranging(s.room.e, s.room.todo - {i}),
                     clients := s.clients[i := s.clients[i].(queue := s.clients[i].queue + [s.room.e])]), rest, s')
    ensures Runs(s, [Pick(i), Push] + rest, s')
  {
    assert ([Pick(i), Push] + rest)[1..] == [Push] + rest;
    assert ([Push] + rest)[1..] == rest;
    var s1 := Apply(s, Pick(i));
    assert Apply(s1, Push) == s.(room := Ranging(s.room.e, s.room.todo - {i}),
                                 clients := s.clients[i := s.clients[i].(queue := s.clients[i].queue + [s.room.e])]);
    assert Runs(s1, [Push] + rest, s');
  }

  /** The range loop may visit the members in any order, and the order makes no difference: with
      room for one more message in every channel, each of them leads to the same state. */
  lemma {:induction false} AnyRangeOrder(s: Chat, order: seq<nat>)
    requires s.room.Ranging? && (forall i :: i in s.room.todo <==> i in order)
    requires forall j, k :: 0 <= j < k < |order| ==> order[j] != order[k]
    requires forall i <- order :: i < |s.clients| && !s.clients[i].closed && |s.clients[i].queue| < 256
    ensures Runs(s, RangeSteps(order), s.(room := Idle, clients := Served(s.clients, s.room.todo, s.room.e)))
    decreases order
  {
    var s' := s.(room := Idle, clients := Served(s.clients, s.room.todo, s.room.e));
    if order == [] {
      assert s.room.todo == {};
      assert s'.clients == s.clients;
      assert Apply(s, EndRange) == s';
      assert [EndRange][1..] == [];
      assert Runs(s', [], s');
    } else {
      var i, rest := order[0], order[1..];
      assert i in order;
      var next := s.(room := Ranging(s.room.e, s.room.todo - {i}),
                     clients := s.clients[i := s.clients[i].(queue := s.clients[i].queue + [s.room.e])]);
      forall j
        ensures j in next.room.todo <==> j in rest
      {
        assert order == [i] + rest;
      }
      assert forall k :: 0 <= k < |rest| ==> rest[k] == order[k + 1];
      AnyRangeOrder(next, rest);
      assert Served(next.clients, next.room.todo, s.room.e) == s'.clients;
      PickAndPush(s, i, RangeSteps(rest), s');
    }
  }
}
