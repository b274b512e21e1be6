/** The rows and records the dispatcher and the client manager read and write.
    Rooms are only read; sender rows and run records are updated in place. */
module Records {

  datatype Option<T> = None | Some(value: T)

  type RoomId = string
  type SenderId = string

  /** A row of the Room table. */
  datatype Room = Room(id: RoomId, name: string, token: string, websiteUrl: string, isActive: bool)

  /** JavaScript truthiness of a nullable string column: null and "" are both unset. */
  function IsSet(s: Option<string>): (b: bool)
    ensures b <==> s != None && s != Some("")
  {
    s.Some? && s.value != ""
  }

  /** A row of the Sender table, as the object the code holds and mutates. */
  class SenderRow {
    const id: SenderId
    const roomId: RoomId
    const clientId: string
    var phoneNumber: Option<string>
    var isActive: bool
    var totalSent: int

    /** A freshly created row carries the column defaults. */
    constructor (id: SenderId, roomId: RoomId, clientId: string)
      ensures this.id == id && this.roomId == roomId && this.clientId == clientId
      ensures phoneNumber == None && isActive && totalSent == 0
    {
      this.id := id;
      this.roomId := roomId;
      this.clientId := clientId;
      phoneNumber := None;
      isActive := true;
      totalSent := 0;
    }
  }

  /** A row of the ProcessLog table: one per dispatch run. */
  class ProcessLog {
    const roomId: RoomId
    const startTime: int
    var endTime: Option<int>
    var totalSentInProcess: int

    /** A run record is created open (no end time) with the column default count 0. */
    constructor (roomId: RoomId, startTime: int)
      ensures this.roomId == roomId && this.startTime == startTime
      ensures endTime == None && totalSentInProcess == 0
    {
      this.roomId := roomId;
      this.startTime := startTime;
      endTime := None;
      totalSentInProcess := 0;
    }
  }

  datatype Status = Success | Failed(errorMessage: string)

  /** One delivery attempt record. */
  datatype MessageLog = MessageLog(roomId: RoomId, senderId: SenderId, receiverNumber: string, status: Status)

  /** No other row of the list carries the id of the row at position `p`. */
  predicate UniqueAt(senders: seq<SenderRow>, p: nat)
    requires p < |senders|
  {
    forall j :: 0 <= j < |senders| && j != p ==> senders[j].id != senders[p].id
  }

  /** Sender ids are primary keys: no two rows of a list share one. */
  predicate DistinctIds(senders: seq<SenderRow>) {
    forall p :: 0 <= p < |senders| ==> UniqueAt(senders, p)
  }

  function Ids(senders: seq<SenderRow>): (ids: seq<SenderId>)
    ensures |ids| == |senders|
    ensures forall i {:trigger ids[i]} :: 0 <= i < |senders| ==> ids[i] == senders[i].id
  {
    seq(|senders|, i requires 0 <= i < |senders| => senders[i].id)
  }
}
