/** The sender registry: one external messaging client per sender id, the latest QR
    challenge it surfaced and whether it reported readiness. The external client is a
    token; its `sendMessage` outcome is a parameter. */
module Sessions {
  import opened Records

  /** An instance of the external client, created for one sender. */
  datatype Client = Client(clientId: string, instance: nat)

  /** What the external client's `sendMessage` did with one call. */
  datatype Transport = Accepted | Rejected(message: string)

  /** The result of `ClientManager.sendMessage`: the call handed to the external client,
      or the message of the error thrown. */
  datatype SendResult = Delivered(via: Client, chatId: string, text: string) | Threw(message: string)

  const NotFoundError := "Client not found or not initialized"
  const NotReadyError := "Client is not ready"
  const ChatSuffix := "@c.us"

  predicate StartsWith(s: string, prefix: string) {
    |prefix| <= |s| && s[..|prefix|] == prefix
  }

  /** `part` occurs in `s` starting at position `i`. */
  predicate OccursAt(s: string, part: string, i: int) {
    0 <= i && i + |part| <= |s| && s[i..i + |part|] == part
  }

  /** `s.includes(part)`: `part` occurs in `s` at some position. */
  function Includes(s: string, part: string): (b: bool)
    ensures b <==> exists i :: OccursAt(s, part, i)
    decreases |s|
  {
    if StartsWith(s, part) then
      assert OccursAt(s, part, 0);
      true
    else if s == [] then false
    else
      var rest := Includes(s[1..], part);
      assert forall i :: OccursAt(s[1..], part, i) <==> OccursAt(s, part, i + 1) by {
        forall i | OccursAt(s[1..], part, i) || OccursAt(s, part, i + 1)
          ensures OccursAt(s[1..], part, i) <==> OccursAt(s, part, i + 1)
        {
          assert s[1..][i..i + |part|] == s[i + 1..i + 1 + |part|];
        }
      }
      assert !OccursAt(s, part, 0);
      assert forall i :: OccursAt(s, part, i) ==> OccursAt(s[1..], part, i - 1);
      rest
  }

  /** The chat id handed to the external client: the number as given when it already
      names a chat, otherwise the number with the chat suffix appended. */
  function ChatId(number: string): (r: string)
    ensures Includes(r, ChatSuffix)
    ensures StartsWith(r, number)
    ensures Includes(number, ChatSuffix) ==> r == number
    ensures !Includes(number, ChatSuffix) ==> r == number + ChatSuffix
  {
    if Includes(number, ChatSuffix) then number
    else
      assert OccursAt(number + ChatSuffix, ChatSuffix, |number|);
      number + ChatSuffix
  }

  /** Normalising an already normalised chat id changes nothing. */
  lemma ChatIdIdempotent(number: string)
    ensures ChatId(ChatId(number)) == ChatId(number)
  {
  }

  /** The check is `includes`, not `endsWith`: a number holding the suffix in its middle
      is passed on unchanged, so a chat id need not end with the suffix. */
  lemma ChatIdKeepsInnerSuffix()
    ensures ChatId("1@c.us2") == "1@c.us2"
    ensures !(|"1@c.us2"| >= |ChatSuffix| && "1@c.us2"[|"1@c.us2"| - |ChatSuffix|..] == ChatSuffix)
  {
    assert StartsWith("1@c.us2"[1..], ChatSuffix);
  }

  class ClientManager {
    var clients: map<SenderId, Client>
    var qrCodes: map<SenderId, string>
    var readyStatus: map<SenderId, bool>

    constructor ()
      ensures clients == map[] && qrCodes == map[] && readyStatus == map[]
    {
      clients := map[];
      qrCodes := map[];
      readyStatus := map[];
    }

    /** `initializeSender` up to `await client.initialize()`: a client is created (and its
        event handlers attached) only for an id not registered yet; nothing is stored
        until initialisation settles. The events may fire before it settles. */
    method InitializeSender(id: SenderId) returns (started: bool)
      ensures started <==> id !in clients
    {
      started := id !in clients;
    }

    /** `initializeSender` after `await client.initialize()`: the client is registered
        only when initialisation succeeded; a failure is only logged. */
    method InitializeSettled(id: SenderId, client: Client, succeeded: bool)
      modifies this
      ensures clients == if succeeded then old(clients)[id := client] else old(clients)
      ensures qrCodes == old(qrCodes) && readyStatus == old(readyStatus)
    {
      if succeeded {
        clients := clients[id := client];
      }
    }

    /** The `qr` event: keep only the latest challenge and clear readiness. */
    method OnQr(id: SenderId, qr: string)
      modifies this
      ensures qrCodes == old(qrCodes)[id := qr]
      ensures readyStatus == old(readyStatus)[id := false]
      ensures clients == old(clients)
      ensures GetQrCode(id) == Some(qr) && !IsReady(id)
    {
      qrCodes := qrCodes[id := qr];
      readyStatus := readyStatus[id := false];
    }

    /** The `ready` event: drop the challenge, set readiness, and record the account's
        phone number (`client.info.wid.user`, absent when the client has no info) only
        when the row has none yet. */
    method OnReady(sender: SenderRow, wid: Option<string>)
      modifies this, sender`phoneNumber
      ensures qrCodes == old(qrCodes) - {sender.id}
      ensures readyStatus == old(readyStatus)[sender.id := true]
      ensures clients == old(clients)
      ensures IsReady(sender.id) && GetQrCode(sender.id) == None
      ensures sender.phoneNumber ==
                if !IsSet(old(sender.phoneNumber)) && wid.Some? then Some(wid.value)
                else old(sender.phoneNumber)
    {
      qrCodes := qrCodes - {sender.id};
      readyStatus := readyStatus[sender.id := true];
      if !IsSet(sender.phoneNumber) {
        if wid.Some? {
          sender.phoneNumber := Some(wid.value);
        }
      }
    }

    /** The `disconnected` event: forget the client and its challenge, and keep the
        readiness entry, set to false. */
    method OnDisconnected(id: SenderId)
      modifies this
      ensures clients == old(clients) - {id}
      ensures qrCodes == old(qrCodes) - {id}
      ensures readyStatus == old(readyStatus)[id := false]
      ensures id in readyStatus && !IsReady(id)
    {
      clients := clients - {id};
      qrCodes := qrCodes - {id};
      readyStatus := readyStatus[id := false];
    }

    /** The stored challenge, if any. */
    function GetQrCode(id: SenderId): (r: Option<string>)
      reads this
      ensures r.Some? <==> id in qrCodes
      ensures r.Some? ==> r.value == qrCodes[id]
    {
      if id in qrCodes then Some(qrCodes[id]) else None
    }

    /** Readiness; an id without an entry is not ready. */
    function IsReady(id: SenderId): (r: bool)
      reads this
      ensures r <==> id in readyStatus && readyStatus[id]
      ensures id !in readyStatus ==> !r
    {
      if id in readyStatus then readyStatus[id] else false
    }

    /** Sends through the registered client: fails with "not found" when no client is
        registered, otherwise with "not ready" when not ready; only then is the external
        client called, with the normalised chat id, and its failure propagated. */
    method SendMessage(id: SenderId, number: string, text: string, transport: Transport)
      returns (r: SendResult)
      ensures id !in clients ==> r == Threw(NotFoundError)
      ensures id in clients && !IsReady(id) ==> r == Threw(NotReadyError)
      ensures r.Delivered? <==> id in clients && IsReady(id) && transport.Accepted?
      ensures r.Delivered? ==> r.via == clients[id] && r.chatId == ChatId(number) && r.text == text
      ensures id in clients && IsReady(id) && transport.Rejected? ==> r == Threw(transport.message)
    {
      if id !in clients {
        return Threw(NotFoundError);
      }
      var client := clients[id];
      if !IsReady(id) {
        return Threw(NotReadyError);
      }
      var chatId := ChatId(number);
      match transport
      case Accepted => r := Delivered(client, chatId, text);
      case Rejected(message) => r := Threw(message);
    }

    /** Stops a registered client (releasing it) and removes the id from all three maps;
        an id with no registered client is left alone. */
    method StopSender(id: SenderId)
      modifies this
      ensures id !in old(clients) ==>
                clients == old(clients) && qrCodes == old(qrCodes) && readyStatus == old(readyStatus)
      ensures id in old(clients) ==>
                clients == old(clients) - {id} && qrCodes == old(qrCodes) - {id}
                && readyStatus == old(readyStatus) - {id}
    {
      if id in clients {
        clients := clients - {id};
        qrCodes := qrCodes - {id};
        readyStatus := readyStatus - {id};
      }
    }
  }

  /** A client can report readiness before its initialisation settles; until then a send
      through it fails with "not found", afterwards it goes through. */
  method ReadyBeforeRegistered(id: SenderId, client: Client)
    returns (early: SendResult, late: SendResult)
    ensures early == Threw(NotFoundError)
    ensures late == Delivered(client, ChatId("15550001"), "hello")
  {
    var manager := new ClientManager();
    var row := new SenderRow(id, "room", "local-auth");
    var started := manager.InitializeSender(id);
    manager.OnQr(id, "challenge");
    manager.OnReady(row, None);
    early := manager.SendMessage(id, "15550001", "hello", Accepted);
    manager.InitializeSettled(id, client, true);
    late := manager.SendMessage(id, "15550001", "hello", Accepted);
  }

  /** After a disconnect the id is no longer registered, so stopping it is a no-op and its
      readiness entry stays, set to false; stopping a registered id removes the entry. */
  method DisconnectThenStop(id: SenderId, client: Client)
    returns (entryAfterDisconnect: bool, entryAfterStop: bool, readyAfterStop: bool)
    ensures entryAfterDisconnect && !readyAfterStop
    ensures !entryAfterStop
  {
    var manager := new ClientManager();
    var row := new SenderRow(id, "room", "local-auth");
    var started := manager.InitializeSender(id);
    manager.InitializeSettled(id, client, true);
    manager.OnReady(row, None);
    manager.OnDisconnected(id);
    manager.StopSender(id);
    entryAfterDisconnect := id in manager.readyStatus;
    readyAfterStop := manager.IsReady(id);
    manager.InitializeSettled(id, client, true);
    manager.StopSender(id);
    entryAfterStop := id in manager.readyStatus;
  }

  /** Initialising an already registered id changes none of the three maps. */
  method InitializeTwice(id: SenderId, first: Client)
    returns (startedAgain: bool, registered: Client)
    ensures !startedAgain && registered == first
  {
    var manager := new ClientManager();
    var started := manager.InitializeSender(id);
    manager.InitializeSettled(id, first, true);
    startedAgain := manager.InitializeSender(id);
    registered := manager.clients[id];
  }
}
