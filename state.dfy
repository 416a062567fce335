/**
 * The records the server keeps: a connected socket (`ws`) with its player
 * (`ws.client`), and a room with its members, cursors and chat history.
 * Sockets are referred to by a connection id (`Sid`); a room's member list
 * and owner hold ids where the source holds socket references.
 */
module State {
  import opened Wrappers
  import opened Codec
  import opened Text
  import opened Protocol

  type Sid = nat

  /** The player behind a socket (client.js `newClient`/`wrapClient`). */
  datatype Client = Client(uuid: string, username: string, color: string, isAdmin: bool, noteQuota: int)

  datatype ReadyState = Open | Closing | Closed

  /**
   * Per-socket state. Times are milliseconds; 0 stands for a field that
   * was never set, which the source tests as falsy. `roomName` is `None`
   * while unset; it can also be set to "", which is just as falsy but is a
   * real key of the room table. `lastPlayedNote` is `None` while undefined (and after an
   * undefined note byte was played).
   */
  datatype Session = Session(
    addr: string,
    origin: Option<string>,
    ip: Option<string>,
    client: Option<Client>,
    roomName: Option<string>,
    clientId: Option<int>,
    lastNotePlayed: int,
    lastPlayedNote: Option<Byte>,
    lastQuotaWarning: int,
    lastMessageSent: int,
    rateLimitWarnings: int,
    state: ReadyState,
    outbox: seq<Frame>)
  {
    function Send(f: Frame): (s: Session)
      ensures s.outbox == outbox + [f]
    {
      this.(outbox := outbox + [f])
    }

    /** The byte a seat id becomes inside a byte array (`undefined` reads as 0). */
    function SeatByte(): Byte {
      match clientId
      case Some(c) => ToUint8(c)
      case None => 0
    }

    /** The key `rooms[ws.roomName]` looks up: an unset name is converted
        to the text "undefined". */
    function RoomKey(): string {
      if roomName.Some? then roomName.value else "undefined"
    }

    /** `ws.roomName` is truthy: set, and not the empty text. */
    predicate HasRoom() {
      roomName.Some? && roomName.value != ""
    }

    function Uuid(): Option<string> {
      if client.Some? then Some(client.value.uuid) else None
    }
  }

  /** A freshly accepted socket, before `handleConnection` runs. */
  function Fresh(addr: string, origin: Option<string>): (s: Session)
    ensures s.state == Open && s.outbox == [] && s.client.None? && s.roomName.None?
  {
    Session(addr, origin, None, None, None, None, 0, None, 0, 0, 0, Open, [])
  }

  /** A queued cursor sample: time offset and position in hundredths of a percent. */
  datatype CursorEvent = CursorEvent(t: int, x: int, y: int)

  datatype Cursor = Cursor(x: int, y: int, lastX: int, lastY: int, cid: Option<int>,
                           queue: seq<CursorEvent>, queueStart: Option<int>)

  /** `room.cursors` is an object keyed by uuid; its insertion order is kept. */
  datatype CursorEntry = CursorEntry(uuid: string, cursor: Cursor)

  /** A chat history entry `[authorUuid, id, text, color]`. */
  datatype ChatMessage = ChatMessage(author: string, id: string, text: string, color: string)

  datatype Room = Room(
    name: string,
    clients: seq<Sid>,
    owner: Option<Sid>,
    created: int,
    hidden: bool,
    chat: seq<ChatMessage>,
    cursors: seq<CursorEntry>,
    persistent: bool,
    chatFilter: bool,
    disableChat: bool,
    disablePiano: bool,
    transferTimer: Option<nat>)

  /** A pending ownership handover: the room it was armed for and the leaver's uuid. */
  datatype Pending = Pending(roomName: string, leaverUuid: string)

  /** Writes the handlers issue to the player and message store. */
  datatype StoreOp =
    | SaveClient(uuid: string, username: string, color: string)
    | UpdateName(uuid: string, name: string)
    | UpdateAdmin(uuid: string, isAdmin: bool)
    | UpdateColor(uuid: string, color: string)
    | SaveMessage(id: string, author: string, text: string, color: string, room: Option<string>)  // `None`: the unset `ws.roomName`
    | DeleteMessage(id: string)

  /** A player record as the store returns it. */
  datatype StoredClient = StoredClient(uuid: string, username: string, color: string, admin: int)

  // ---------------------------------------------------------------------
  // Lookups that read through connection ids.

  function UuidOf(ss: map<Sid, Session>, c: Sid): Option<string> {
    if c in ss then ss[c].Uuid() else None
  }

  /** `room.owner?.client?.uuid`. */
  function OwnerUuid(ss: map<Sid, Session>, r: Room): Option<string> {
    if r.owner.Some? then UuidOf(ss, r.owner.value) else None
  }

  function FindCursor(cs: seq<CursorEntry>, uuid: string): (r: Option<Cursor>)
    ensures r.Some? <==> exists i :: 0 <= i < |cs| && cs[i].uuid == uuid
  {
    if cs == [] then None
    else if cs[0].uuid == uuid then Some(cs[0].cursor)
    else
      var r := FindCursor(cs[1..], uuid);
      assert forall i :: 1 <= i < |cs| ==> cs[i] == cs[1..][i - 1];
      r
  }

  /** Assigning `room.cursors[uuid]`: replaced in place if present, appended otherwise. */
  function PutCursor(cs: seq<CursorEntry>, uuid: string, c: Cursor): (r: seq<CursorEntry>)
    ensures FindCursor(r, uuid) == Some(c)
    ensures forall u :: u != uuid ==> FindCursor(r, u) == FindCursor(cs, u)
  {
    if cs == [] then [CursorEntry(uuid, c)]
    else if cs[0].uuid == uuid then [CursorEntry(uuid, c)] + cs[1..]
    else [cs[0]] + PutCursor(cs[1..], uuid, c)
  }

  /** `delete room.cursors[uuid]`. */
  function RemoveCursor(cs: seq<CursorEntry>, uuid: string): (r: seq<CursorEntry>)
    ensures FindCursor(r, uuid).None?
    ensures forall u :: u != uuid ==> FindCursor(r, u) == FindCursor(cs, u)
    ensures |r| <= |cs|
  {
    if cs == [] then []
    else if cs[0].uuid == uuid then RemoveCursor(cs[1..], uuid)
    else [cs[0]] + RemoveCursor(cs[1..], uuid)
  }
}
