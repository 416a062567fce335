/**
 * Wire-level vocabulary shared by server and client: opcodes, limits,
 * and the frames a socket can be sent.
 */
module Protocol {
  import opened Wrappers
  import opened Codec

  // Opcodes (server/src/config/constants.js). Several numbers are shared
  // by a client-to-server and a server-to-client meaning.
  const JOIN_ROOM: Byte := 1
  const PLAYER_JOINED: Byte := 2
  const PLAYER_LEFT: Byte := 3
  const SET_CURSOR_POS: Byte := 3
  const CURSOR_UPDATE: Byte := 4
  const PRESS_NOTE: Byte := 5
  const RELEASE_NOTE: Byte := 6
  const BATCH_NOTES: Byte := 7
  const SEND_CHAT: Byte := 8
  const CHAT_HISTORY: Byte := 9
  const ROOM_LIST: Byte := 10
  const SET_NAME: Byte := 11
  const UPDATE_ROOM_SETTINGS: Byte := 12
  const DELETE_MESSAGE: Byte := 12
  const OWNERSHIP_TRANSFER: Byte := 13
  const ROOM_SETTINGS: Byte := 14
  const PING: Byte := 99
  const PONG: Byte := 99
  const RATE_LIMITED: Byte := 250

  /** The rate-limit notice names an opcode key the table does not define;
      a missing key reads as `undefined`, which a byte array stores as 0. */
  const RATE_LIMIT_WARNING_BYTE: Byte := 0

  const MAX_PLAYERS_PER_ROOM := 10
  const MAX_NOTE_QUOTA := 100
  const MAX_CHAT_HISTORY := 55
  const DEFAULT_ROOM_NAME := "lobby"
  const SYSTEM_CLIENT_ID: Byte := 255
  const MAX_CONCURRENT := 5

  /** A sliding-window budget: at most `reqs` calls per `ms` milliseconds. */
  datatype Limit = Limit(reqs: nat, ms: nat)

  const CONNECTION_LIMIT := Limit(5, 1000)
  const JOIN_ROOM_LIMIT := Limit(1, 500)
  const SET_CURSOR_POS_LIMIT := Limit(200, 1000)
  const PLAY_NOTE_LIMIT := Limit(2000, 1000)
  const RELEASE_NOTE_LIMIT := Limit(2000, 1000)
  const BATCH_NOTES_LIMIT := Limit(100, 1000)
  const SEND_CHAT_LIMIT := Limit(50, 1000)
  const SET_NAME_LIMIT := Limit(1, 1000)
  const SET_ROOM_SETTINGS_LIMIT := Limit(1, 1000)
  const PING_PONG_LIMIT := Limit(10, 1000)

  /** JSON values; their text encoding is not modelled. */
  datatype Json = JNull | JBool(b: bool) | JNum(n: int) | JStr(s: string) | JArr(items: seq<Json>)

  /**
   * A frame handed to `send`: raw bytes, or a byte header followed by the
   * UTF-8 encoding of a string or of a JSON value (encodings kept abstract).
   */
  datatype Frame =
    | Binary(bytes: seq<Byte>)
    | WithText(head: seq<Byte>, text: string)
    | WithJson(head: seq<Byte>, json: Json)
  {
    /** The opcode byte a receiver dispatches on, if the frame has one. */
    function Opcode(): Option<Byte> {
      match this
      case Binary(b) => if |b| > 0 then Some(b[0]) else None
      case WithText(h, _) => if |h| > 0 then Some(h[0]) else None
      case WithJson(h, _) => if |h| > 0 then Some(h[0]) else None
    }
  }

  /** The one-line notice sent with the reserved system seat (network.js `sendSystemMsg`). */
  function SystemMsg(msg: string): (f: Frame)
    ensures f.Opcode() == Some(SEND_CHAT)
    ensures f.WithJson? && |f.head| == 2 && f.head[1] == SYSTEM_CLIENT_ID
    ensures f.json.JArr? && |f.json.items| == 2 && f.json.items[0].JNull? && f.json.items[1].JStr? && f.json.items[1].s == msg
  {
    WithJson([SEND_CHAT, SYSTEM_CLIENT_ID], JArr([JNull, JStr(msg)]))
  }
}
