/** The running chat: the room's fields, which only the room goroutine changes, and the clients,
    which their own goroutines change. Each method is one indivisible step of one goroutine, or
    one rendezvous of two. */
module ChatServer {
  import opened ChatRoom

  /** Every client was sent, or is still owed, the broadcast message exactly if it is a member. */
  ghost predicate FansOut(before: seq<Client>, s: Chat, e: Entry) {
    && |s.clients| == |before|
    && forall k :: 0 <= k < |before| ==>
         Received(s.clients[k]) + Owed(s.room, k) == Received(before[k]) + if k in s.members then [e] else []
  }

  /** In the range loop: channels to come are as before, those visited had room. */
  ghost predicate Spreading(before: seq<Client>, s: Chat) {
    && s.room.Ranging? && s.room.todo <= s.members
    && FansOut(before, s, s.room.e)
    && (forall k <- s.members :: k < |before|)
    && forall k <- s.members ::
         if k in s.room.todo then s.clients[k].queue == before[k].queue
         else |before[k].queue| < MESSAGE_BUFFER_SIZE
  }

  /** Every one of these members has room in its channel. */
  predicate HaveRoom(clients: seq<Client>, members: set<nat>) {
    forall k <- members :: k < |clients| && |clients[k].queue| < 256
  }

  lemma SpreadingEnds(before: seq<Client>, s: Chat)
    requires Spreading(before, s) && s.room.todo == {}
    ensures FansOut(before, s.(room := Idle), s.room.e) && HaveRoom(before, s.members)
  {
    forall k | 0 <= k < |before|
      ensures Owed(Idle, k) == Owed(s.room, k)
    {
    }
  }

  lemma SpreadingStarts(scripts: seq<seq<string>>, s: Chat, i: nat, stamp: string)
    requires Inv(scripts, s) && Enabled(s, Forward(i, stamp))
    ensures Spreading(s.clients, Apply(s, Forward(i, stamp)))
  {
    var e := Entry(i, stamp, s.clients[i].handler.body);
    forall k | 0 <= k < |s.clients|
      ensures Received(Apply(s, Forward(i, stamp)).clients[k]) == Received(s.clients[k])
    {
    }
  }

  lemma PickKeepsFanOut(before: seq<Client>, s: Chat, i: nat)
    requires Spreading(before, s) && Enabled(s, Pick(i))
    ensures FansOut(before, Apply(s, Pick(i)), s.room.e)
  {
    var next := Apply(s, Pick(i));
    forall k | 0 <= k < |before|
      ensures Owed(next.room, k) == Owed(s.room, k)
    {
    }
  }

  lemma PushSpreads(before: seq<Client>, s: Chat, i: nat)
    requires Spreading(before, s) && Enabled(s, Pick(i))
    requires !s.clients[i].closed && Enabled(Apply(s, Pick(i)), Push)
    ensures Spreading(before, Apply(Apply(s, Pick(i)), Push))
  {
    var next := Apply(Apply(s, Pick(i)), Push);
    assert next.room.todo == s.room.todo - {i};
    assert Received(next.clients[i]) == Received(s.clients[i]) + [s.room.e];
    forall k | 0 <= k < |before|
      ensures Received(next.clients[k]) + Owed(next.room, k) == Received(s.clients[k]) + Owed(s.room, k)
    {
    }
  }

  class Server {
    ghost const scripts: seq<seq<string>>
    var room: RoomPc
    var members: set<nat>
    var clients: seq<Client>
    var log: seq<Entry>
    var panicked: bool

    ghost function View(): Chat
      reads this
    {
      Chat(room, members, clients, log, panicked)
    }

    ghost predicate Valid()
      reads this
    {
      Inv(scripts, View())
    }

    constructor (scripts: seq<seq<string>>)
      ensures Valid() && this.scripts == scripts && View() == Init(scripts)
    {
      this.scripts := scripts;
      room := Idle;
      members := {};
      clients := seq(|scripts|, i requires 0 <= i < |scripts| => NewClient(scripts[i]));
      log := [];
      panicked := false;
      new;
      InitInv(scripts);
    }

    // ----- the room goroutine: the three cases of the select, and the range loop -----

    method ReceiveJoin(i: nat)
      requires Valid() && i < |clients| && room.Idle? && clients[i].handler.Upgraded?
      modifies this
      ensures Valid() && View() == Apply(old(View()), Join(i))
      ensures members == old(members) + {i} && clients[i].joinedAt == |log| && room.Idle? && log == old(log)
      ensures forall k :: 0 <= k < |clients| && k != i ==> clients[k] == old(clients)[k]
    {
      StepKeepsInv(scripts, View(), Join(i));
      members := members + {i};
      clients := clients[i := clients[i].(handler := Joined, joinedAt := |log|)];
    }

    method ReceiveLeave(i: nat)
      requires Valid() && i < |clients| && room.Idle? && clients[i].handler.Leaving?
      modifies this
      ensures Valid() && View() == Apply(old(View()), Leave(i))
      ensures clients[i].closed && i !in members && !panicked
      ensures members == old(members) - {i} && room.Idle? && log == old(log)
      ensures clients[i].queue == old(clients)[i].queue
      ensures forall k :: 0 <= k < |clients| && k != i ==> clients[k] == old(clients)[k]
    {
      StepKeepsInv(scripts, View(), Leave(i));
      assert Accounted(View(), i);
      panicked := clients[i].closed;  // closing a closed channel would panic
      members := members - {i};
      clients := clients[i := clients[i].(handler := Gone, closed := true, leftAt := |log|)];
    }

    method ReceiveForward(i: nat, stamp: string)
      requires Valid() && i < |clients| && room.Idle? && clients[i].handler.Forwarding?
      modifies this
      ensures Valid() && View() == Apply(old(View()), Forward(i, stamp))
      ensures log == old(log) + [Entry(i, stamp, old(clients)[i].handler.body)]
      ensures room == Ranging(log[|log| - 1], members) && members == old(members)
      ensures clients == old(clients)[i := old(clients)[i].(handler := Reading)]
    {
      StepKeepsInv(scripts, View(), Forward(i, stamp));
      var e := Entry(i, stamp, clients[i].handler.body);
      clients := clients[i := clients[i].(handler := Reading)];
      log := log + [e];
      room := Ranging(e, members);
    }

    /** The head of the range loop: any key not visited yet, or the end of the loop. */
    method NextTarget()
      requires Valid() && room.Ranging?
      modifies this
      ensures Valid()
      ensures if old(room).todo == {} then View() == Apply(old(View()), EndRange)
              else room.Sending? && Enabled(old(View()), Pick(room.current))
                   && View() == Apply(old(View()), Pick(room.current))
      ensures if old(room).todo == {} then room.Idle?
              else room.Sending? && room.current in old(room).todo
                   && room == Sending(old(room).e, room.current, old(room).todo - {room.current})
      ensures members == old(members) && clients == old(clients) && log == old(log)
    {
      if room.todo == {} {
        StepKeepsInv(scripts, View(), EndRange);
        room := Idle;
      } else {
        var i :| i in room.todo;
        StepKeepsInv(scripts, View(), Pick(i));
        room := Sending(room.e, i, room.todo - {i});
      }
    }

    /** The body of the range loop; the channel has room, or the goroutine stays blocked. */
    method PushToTarget() returns (sent: bool)
      requires Valid() && room.Sending?
      modifies this
      ensures Valid() && sent == Enabled(old(View()), Push)
      ensures View() == if sent then Apply(old(View()), Push) else old(View())
      ensures !sent ==> |clients[room.current].queue| == 256
      ensures !panicked
      ensures sent <==> |old(clients)[old(room).current].queue| < 256
      ensures sent ==> clients[old(room).current].queue == old(clients)[old(room).current].queue + [old(room).e]
      ensures members == old(members) && log == old(log)
    {
      assert Accounted(View(), room.current);
      var c := clients[room.current];
      sent := c.closed || |c.queue| < MESSAGE_BUFFER_SIZE;
      if sent {
        StepKeepsInv(scripts, View(), Push);
        panicked := c.closed;  // sending on a closed channel would panic
        clients := clients[room.current := c.(queue := c.queue + [room.e])];
        room := Ranging(room.e, room.todo);
      }
    }

    /** One turn of the range loop. */
    method SendToNext(ghost before: seq<Client>) returns (sent: bool)
      requires Valid() && Spreading(before, View()) && room.todo != {}
      modifies this
      ensures Valid() && members == old(members) && log == old(log)
      ensures sent ==> Spreading(before, View()) && room.e == old(room).e && |room.todo| < |old(room).todo|
      ensures !sent ==> room.Sending? && FansOut(before, View(), old(room).e)
      ensures !sent ==> |clients[room.current].queue| == 256 && !HaveRoom(before, members)
    {
      ghost var was := View();
      NextTarget();
      ghost var target := room.current;
      assert Accounted(was, target);
      PickKeepsFanOut(before, was, target);
      sent := PushToTarget();
      if sent {
        PushSpreads(before, was, target);
      }
    }

    /** The whole case of the select for a forwarded message, as long as no other goroutine moves:
        every member is sent the message once, nobody else anything, and the loop gets to its end
        if and only if every member's channel has room; otherwise it blocks on a full one. */
    method Broadcast(i: nat, stamp: string)
      requires Valid() && i < |clients| && room.Idle? && clients[i].handler.Forwarding?
      modifies this
      ensures Valid() && members == old(members) && |clients| == |old(clients)|
      ensures log == old(log) + [Entry(i, stamp, old(clients)[i].handler.body)]
      ensures FansOut(old(clients), View(), log[|log| - 1])
      ensures room.Idle? <==> HaveRoom(old(clients), members)
      ensures !room.Idle? ==> room.Sending? && |clients[room.current].queue| == 256
    {
      ghost var before := clients;
      SpreadingStarts(scripts, View(), i, stamp);
      ReceiveForward(i, stamp);
      while room.todo != {}
        invariant Valid() && Spreading(before, View())
        invariant room.e == Entry(i, stamp, before[i].handler.body)
        invariant members == old(members) && log == old(log) + [room.e]
        decreases |room.todo|
      {
        var sent := SendToNext(before);
        if !sent {
          return;
        }
      }
      SpreadingEnds(before, View());
      NextTarget();
    }

    // ----- the goroutines of client i -----

    method GoWrite(i: nat)
      requires Valid() && i < |clients| && clients[i].handler.Joined?
      modifies this
      ensures Valid() && View() == Apply(old(View()), ChatRoom.StartWriter(i))
      ensures clients == old(clients)[i := old(clients)[i].(handler := Reading, writer := AtRange)]
    {
      StepKeepsInv(scripts, View(), ChatRoom.StartWriter(i));
      clients := clients[i := clients[i].(handler := Reading, writer := AtRange)];
    }

    /** ReadMessage: the next message, or an error, which ends the reader. */
    method ReadMessage(i: nat, ok: bool)
      requires Valid() && i < |clients| && clients[i].handler.Reading? && (ok ==> clients[i].input != [])
      modifies this
      ensures Valid() && View() == Apply(old(View()), if ok then ReadOk(i) else ReadErr(i))
      ensures clients[i].handler == if ok then Forwarding(old(clients)[i].input[0]) else Leaving
      ensures clients[i].input == old(clients)[i].input[if ok then 1 else 0..]
    {
      StepKeepsInv(scripts, View(), if ok then ReadOk(i) else ReadErr(i));
      var c := clients[i];
      clients := clients[i := if ok then c.(handler := Forwarding(c.input[0]), input := c.input[1..])
                              else c.(handler := Leaving)];
    }

    /** The writer's range over its channel: the next message, the end of a closed and empty
        channel, or still blocked. */
    method ReceiveFromSend(i: nat)
      requires Valid() && i < |clients| && clients[i].writer.AtRange?
      modifies this
      ensures Valid()
      ensures View() == if old(clients)[i].queue != [] then Apply(old(View()), Dequeue(i))
                        else if old(clients)[i].closed then Apply(old(View()), Drain(i))
                        else old(View())
      ensures var c, c' := old(clients)[i], clients[i];
              if c.queue != [] then c'.writer == Writing(c.queue[0]) && c'.queue == c.queue[1..]
              else c'.queue == [] && c'.writer == if c.closed then Drained else AtRange
    {
      var c := clients[i];
      if c.queue != [] {
        StepKeepsInv(scripts, View(), Dequeue(i));
        clients := clients[i := c.(writer := Writing(c.queue[0]), queue := c.queue[1..])];
      } else if c.closed {
        StepKeepsInv(scripts, View(), Drain(i));
        clients := clients[i := c.(writer := Drained)];
      }
    }

    method WriteMessage(i: nat, ok: bool)
      requires Valid() && i < |clients| && clients[i].writer.Writing?
      modifies this
      ensures Valid() && View() == Apply(old(View()), if ok then WriteOk(i) else WriteErr(i))
      ensures clients[i].writer == if ok then AtRange else Failed(old(clients)[i].writer.e)
      ensures clients[i].written == old(clients)[i].written + if ok then [old(clients)[i].writer.e] else []
    {
      StepKeepsInv(scripts, View(), if ok then WriteOk(i) else WriteErr(i));
      var c := clients[i];
      clients := clients[i := if ok then c.(writer := AtRange, written := c.written + [c.writer.e])
                              else c.(writer := Failed(c.writer.e))];
    }
  }
}
