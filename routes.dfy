/** The two request handlers that start a dispatch: their guard checks, in order, and
    the run they start once every guard passes. The Room and Sender tables are read as
    sequences of rows in table order. */
module Routes {
  import opened Records
  import opened Dispatch

  const InvalidRoomError := "Invalid room token or website URL"
  const InactiveRoomError := "Room is inactive"
  const NoSendersError := "No active senders in this room"
  const InvalidMessagesError := "Invalid messages array"
  const BroadcastStarted := "Message sending process started"
  const CustomStarted := "Custom message sending process started"

  /** The `messages` field of a custom request body, as far as the guard looks at it. */
  datatype MessagesField = Missing | NotAnArray | AnArray(items: seq<Item>)

  /** What the room guards decide: the room and its active senders, or an error reply. */
  datatype Gate = Open(room: Room, senders: seq<SenderRow>) | Closed(status: nat, error: string)

  /** What a whole request's guards decide: the run to start, or an error reply. */
  datatype Admission = Admit(room: Room, senders: seq<SenderRow>, items: seq<Item>) | Reject(status: nat, error: string)

  /** The HTTP reply: the run was started (status 200), or an error status and message. */
  datatype Reply = Started(message: string) | ErrorReply(status: nat, error: string)

  predicate Matches(room: Room, token: string, url: string) {
    room.token == token && room.websiteUrl == url
  }

  /** Room tokens are unique in the Room table. */
  predicate UniqueTokens(rooms: seq<Room>) {
    forall i, j :: 0 <= i < j < |rooms| ==> rooms[i].token != rooms[j].token
  }

  /** The room looked up by token and website URL: the first matching row. */
  function FindRoom(rooms: seq<Room>, token: string, url: string): (r: Option<Room>)
    ensures r.None? <==> forall i :: 0 <= i < |rooms| ==> !Matches(rooms[i], token, url)
    ensures r.Some? ==> exists i :: 0 <= i < |rooms| && rooms[i] == r.value && Matches(rooms[i], token, url) &&
                                    forall j :: 0 <= j < i ==> !Matches(rooms[j], token, url)
    decreases |rooms|
  {
    if rooms == [] then None
    else if Matches(rooms[0], token, url) then Some(rooms[0])
    else
      var r := FindRoom(rooms[1..], token, url);
      assert forall i :: 1 <= i < |rooms| ==> rooms[i] == rooms[1..][i - 1];
      r
  }

  /** With unique tokens the lookup finds the one room carrying both the token and the URL. */
  lemma {:induction false} FindRoomUnique(rooms: seq<Room>, token: string, url: string, k: nat)
    requires UniqueTokens(rooms) && k < |rooms| && Matches(rooms[k], token, url)
    ensures FindRoom(rooms, token, url) == Some(rooms[k])
    decreases |rooms|
  {
    if k > 0 {
      if Matches(rooms[0], token, url) {
        assert false;
      } else {
        assert rooms[1..][k - 1] == rooms[k];
        FindRoomUnique(rooms[1..], token, url, k - 1);
      }
    }
  }

  /** The active senders of a room, in table order. */
  function ActiveSenders(rows: seq<SenderRow>, roomId: RoomId): (r: seq<SenderRow>)
    reads rows
    ensures |r| <= |rows|
    ensures forall i :: 0 <= i < |r| ==> r[i] in rows && r[i].roomId == roomId && r[i].isActive
    ensures forall i :: 0 <= i < |rows| && rows[i].roomId == roomId && rows[i].isActive ==> rows[i] in r
    decreases |rows|
  {
    if rows == [] then []
    else
      var init := rows[..|rows| - 1];
      var last := rows[|rows| - 1];
      assert rows == init + [last];
      var r := ActiveSenders(init, roomId);
      if last.roomId == roomId && last.isActive then r + [last] else r
  }

  /** The lookup keeps table order: the active senders among the first k rows come first. */
  lemma {:induction false} ActiveSendersPrefix(rows: seq<SenderRow>, roomId: RoomId, k: nat)
    requires k <= |rows|
    ensures ActiveSenders(rows[..k], roomId) <= ActiveSenders(rows, roomId)
    decreases |rows|
  {
    if k < |rows| {
      var init := rows[..|rows| - 1];
      ActiveSendersPrefix(init, roomId, k);
      assert init[..k] == rows[..k];
    } else {
      assert rows[..k] == rows;
    }
  }

  /** Sender ids are primary keys, so the senders of a room have distinct ids too. */
  lemma {:induction false} ActiveSendersDistinct(rows: seq<SenderRow>, roomId: RoomId)
    requires DistinctIds(rows)
    ensures DistinctIds(ActiveSenders(rows, roomId))
    decreases |rows|
  {
    if rows != [] {
      var k := |rows| - 1;
      var init, last := rows[..k], rows[k];
      assert DistinctIds(init) by {
        forall p | 0 <= p < |init|
          ensures UniqueAt(init, p)
        {
          assert UniqueAt(rows, p);
        }
      }
      ActiveSendersDistinct(init, roomId);
      var r := ActiveSenders(init, roomId);
      if last.roomId == roomId && last.isActive {
        assert UniqueAt(rows, k);
        forall s | s in r
          ensures s.id != last.id
        {
          var j :| 0 <= j < |init| && init[j] == s;
          assert rows[j] == s;
        }
        var r' := r + [last];
        forall p | 0 <= p < |r'|
          ensures UniqueAt(r', p)
        {
          if p < |r| {
            assert UniqueAt(r, p);
            assert r'[|r|] == last && r[p] in r;
          } else {
            assert forall j :: 0 <= j < |r| ==> r'[j] == r[j] && r[j] in r;
          }
        }
      }
    }
  }

  /** The guards both handlers share, in order: the room must exist (401), be active
      (400) and have an active sender (400). */
  function RoomGate(rooms: seq<Room>, rows: seq<SenderRow>, token: string, url: string): (g: Gate)
    reads rows
    ensures FindRoom(rooms, token, url).None? ==> g == Closed(401, InvalidRoomError)
    ensures FindRoom(rooms, token, url).Some? && !FindRoom(rooms, token, url).value.isActive ==>
              g == Closed(400, InactiveRoomError)
    ensures g == Closed(400, NoSendersError) <==>
              FindRoom(rooms, token, url).Some? && FindRoom(rooms, token, url).value.isActive &&
              forall i :: 0 <= i < |rows| ==> !(rows[i].roomId == FindRoom(rooms, token, url).value.id && rows[i].isActive)
    ensures g.Open? <==>
              FindRoom(rooms, token, url).Some? && FindRoom(rooms, token, url).value.isActive &&
              exists i :: 0 <= i < |rows| && rows[i].roomId == FindRoom(rooms, token, url).value.id && rows[i].isActive
    ensures g.Open? ==> g.room in rooms && Matches(g.room, token, url) && g.room.isActive
    ensures g.Open? ==> g.senders == ActiveSenders(rows, g.room.id) && g.senders != []
  {
    match FindRoom(rooms, token, url)
    case None => Closed(401, InvalidRoomError)
    case Some(room) =>
      if !room.isActive then Closed(400, InactiveRoomError)
      else
        var senders := ActiveSenders(rows, room.id);
        if senders == [] then Closed(400, NoSendersError)
        else
          assert senders[0] in rows;
          Open(room, senders)
  }

  /** `/send-messages`: the room guards, then a broadcast of the body (or the room
      greeting) to every receiver; no check on the receivers themselves. */
  function ValidateBroadcast(rooms: seq<Room>, rows: seq<SenderRow>, token: string, url: string,
                             receivers: seq<string>, body: Option<string>): (a: Admission)
    reads rows
    ensures RoomGate(rooms, rows, token, url).Closed? <==> a.Reject?
    ensures a.Reject? ==> a == Reject(RoomGate(rooms, rows, token, url).status, RoomGate(rooms, rows, token, url).error)
    ensures a.Admit? ==> a.room == RoomGate(rooms, rows, token, url).room &&
                         a.senders == RoomGate(rooms, rows, token, url).senders &&
                         |a.items| == |receivers| &&
                         forall i :: 0 <= i < |receivers| ==>
                           a.items[i] == Item(receivers[i], BroadcastText(body, a.room.name))
  {
    match RoomGate(rooms, rows, token, url)
    case Closed(status, error) => Reject(status, error)
    case Open(room, senders) => Admit(room, senders, BroadcastItems(receivers, body, room.name))
  }

  /** `/send-custom-messages`: the room guards, then the messages must be a non-empty
      array (400). */
  function ValidateCustom(rooms: seq<Room>, rows: seq<SenderRow>, token: string, url: string,
                          messages: MessagesField): (a: Admission)
    reads rows
    ensures RoomGate(rooms, rows, token, url).Closed? ==>
              a == Reject(RoomGate(rooms, rows, token, url).status, RoomGate(rooms, rows, token, url).error)
    ensures RoomGate(rooms, rows, token, url).Open? && !(messages.AnArray? && messages.items != []) ==>
              a == Reject(400, InvalidMessagesError)
    ensures a.Admit? <==> RoomGate(rooms, rows, token, url).Open? && messages.AnArray? && messages.items != []
    ensures a.Admit? ==> a.room == RoomGate(rooms, rows, token, url).room &&
                         a.senders == RoomGate(rooms, rows, token, url).senders && a.items == messages.items
  {
    match RoomGate(rooms, rows, token, url)
    case Closed(status, error) => Reject(status, error)
    case Open(room, senders) =>
      if messages.AnArray? && messages.items != [] then Admit(room, senders, messages.items)
      else Reject(400, InvalidMessagesError)
  }

  /** The messages are checked last: a request the room guards refuse gets the room's
      error whatever its messages, and the two endpoints refuse it alike. */
  lemma RoomGuardsFirst(rooms: seq<Room>, rows: seq<SenderRow>, token: string, url: string,
                        messages: MessagesField, receivers: seq<string>, body: Option<string>)
    requires RoomGate(rooms, rows, token, url).Closed?
    ensures ValidateCustom(rooms, rows, token, url, messages) == ValidateBroadcast(rooms, rows, token, url, receivers, body)
    ensures ValidateCustom(rooms, rows, token, url, messages).error != InvalidMessagesError
  {
  }

  /** Every admitted run has at least one sender, all of them active senders of the
      admitted (active) room with distinct ids. */
  lemma AdmittedSenders(rooms: seq<Room>, rows: seq<SenderRow>, token: string, url: string,
                        messages: MessagesField, receivers: seq<string>, body: Option<string>)
    requires DistinctIds(rows)
    ensures var a := ValidateCustom(rooms, rows, token, url, messages);
            a.Admit? ==> a.senders != [] && a.room.isActive && DistinctIds(a.senders) &&
                         forall s :: s in a.senders ==> s in rows && s.roomId == a.room.id && s.isActive
    ensures var a := ValidateBroadcast(rooms, rows, token, url, receivers, body);
            a.Admit? ==> a.senders != [] && a.room.isActive && DistinctIds(a.senders) &&
                         forall s :: s in a.senders ==> s in rows && s.roomId == a.room.id && s.isActive
  {
    var g := RoomGate(rooms, rows, token, url);
    if g.Open? {
      ActiveSendersDistinct(rows, g.room.id);
    }
  }

  /** The `/send-messages` handler's reply, decided by the guards alone for every
      request: the run it starts with the returned admission (`StartRun`) is not
      awaited, so nothing about the run bears on the reply. */
  method SendMessages(rooms: seq<Room>, rows: seq<SenderRow>, token: string, url: string,
                      receivers: seq<string>, body: Option<string>)
    returns (reply: Reply, a: Admission)
    ensures a == ValidateBroadcast(rooms, rows, token, url, receivers, body)
    ensures RoomGate(rooms, rows, token, url).Closed? ==>
              reply == ErrorReply(RoomGate(rooms, rows, token, url).status, RoomGate(rooms, rows, token, url).error)
    ensures RoomGate(rooms, rows, token, url).Open? ==> reply == Started(BroadcastStarted)
  {
    a := ValidateBroadcast(rooms, rows, token, url, receivers, body);
    reply := if a.Admit? then Started(BroadcastStarted) else ErrorReply(a.status, a.error);
  }

  /** The `/send-custom-messages` handler's reply, decided by the guards alone for every
      request, as for `SendMessages`. */
  method SendCustomMessages(rooms: seq<Room>, rows: seq<SenderRow>, token: string, url: string,
                            messages: MessagesField)
    returns (reply: Reply, a: Admission)
    ensures a == ValidateCustom(rooms, rows, token, url, messages)
    ensures RoomGate(rooms, rows, token, url).Closed? ==>
              reply == ErrorReply(RoomGate(rooms, rows, token, url).status, RoomGate(rooms, rows, token, url).error)
    ensures RoomGate(rooms, rows, token, url).Open? && !(messages.AnArray? && messages.items != []) ==>
              reply == ErrorReply(400, InvalidMessagesError)
    ensures RoomGate(rooms, rows, token, url).Open? && messages.AnArray? && messages.items != [] ==>
              reply == Started(CustomStarted)
  {
    a := ValidateCustom(rooms, rows, token, url, messages);
    reply := if a.Admit? then Started(CustomStarted) else ErrorReply(a.status, a.error);
  }

  /** The run a handler starts in the background with an admission: nothing for a
      rejected request; for an admitted one, a dispatch over its items by its senders.
      Item i is recorded by the admitted sender at position `slots[i]` with the outcome
      of attempt i; each admitted sender's counter grows by its successes in the run,
      and every other sender row is left as it was. */
  method StartRun(rows: seq<SenderRow>, a: Admission, maxPer: int, ready: iset<(nat, SenderId)>,
                  failures: imap<nat, string>, startTime: int, endTime: int)
    returns (run: Option<ProcessLog>, log: seq<MessageLog>, ghost slots: seq<nat>)
    requires DistinctIds(rows)
    requires a.Admit? ==> DistinctIds(a.senders) && (forall s :: s in a.senders ==> s in rows) &&
                          Finishes(Ids(a.senders), ready, maxPer, |a.items|)
    modifies rows
    ensures a.Reject? ==> run == None && log == [] && slots == []
    ensures a.Admit? ==> run.Some? && fresh(run.value) && run.value.roomId == a.room.id &&
                         run.value.startTime == startTime && run.value.endTime == Some(endTime) &&
                         |log| == |a.items| && run.value.totalSentInProcess == Successes(log)
    ensures a.Admit? ==> forall j :: 0 <= j < |a.senders| ==>
              a.senders[j].totalSent == old(a.senders[j].totalSent) + SuccessesBy(log, a.senders[j].id)
    ensures a.Admit? ==> |slots| == |log| && forall i :: 0 <= i < |log| ==>
              slots[i] < |a.senders| &&
              log[i] == Record(a.room.id, a.senders[slots[i]].id, a.items[i], OutcomeAt(failures, i))
    ensures forall s :: s in rows && (a.Reject? || s !in a.senders) ==> s.totalSent == old(s.totalSent)
    ensures forall s :: s in rows ==> s.isActive == old(s.isActive) && s.phoneNumber == old(s.phoneNumber)
  {
    if a.Reject? {
      return None, [], [];
    }
    var p, cycles;
    ghost var calls;
    assert forall j :: 0 <= j < |a.senders| ==> a.senders[j] in rows;
    p, log, cycles, slots, calls := RunDispatch(a.room, a.senders, a.items, maxPer, ready, failures, startTime, endTime);
    run := Some(p);
  }
}
