/**
 * The server's state and handlers: the socket table, the room registry
 * (server/src/state/rooms.js), the rate-limit windows and connection counts
 * (server/src/state/security.js), the admin-phrase flag, the cursor flush
 * intervals and the ownership timers, and every handler that changes them.
 *
 * Sockets are records keyed by a connection id; a `send` appends a frame to
 * the socket's outbox. Timers are explicit methods the environment calls
 * (`FireOwnershipTimer`, `FlushCursors`); the current time and the server's
 * uptime are parameters. Store writes are appended to `store`.
 */
module PianoServer {
  import opened Wrappers
  import opened Codec
  import opened Text
  import opened Protocol
  import opened State
  import opened RoomUtil
  import opened Clients
  import opened Network
  import opened Security
  import opened Connections
  import opened Rooms
  import Piano
  import Cursors
  import Chat

  /** Deployment settings and the opaque services the handlers call. */
  datatype Config = Config(
    adminPhrase: string,            // "" when unset
    allowedOrigins: seq<string>,    // empty: any origin
    saltOne: Option<string>,
    saltTwo: Option<string>,
    hash: string -> string,         // sha256, hex encoded
    utf8: seq<Byte> -> string)      // UTF-8 decoding of a payload

  /** The player id of an address: the hash of the salted, shuffled address. */
  function PlayerUuid(cfg: Config, addr: string): string {
    cfg.hash(HashInput(cfg.saltOne, cfg.saltTwo, addr))
  }

  /** The player of an admitted connection: a new one named "Player" + roll,
      or the stored one (admin when the stored flag is exactly 1). */
  function NewPlayer(cfg: Config, addr: string, stored: Option<StoredClient>, roll: Roll, color: string): (c: Client)
    ensures c.noteQuota == MAX_NOTE_QUOTA
    ensures stored.None? ==> c.uuid == PlayerUuid(cfg, addr) && !c.isAdmin
    ensures stored.Some? ==> (c.uuid == stored.value.uuid && c.username == stored.value.username
      && c.color == stored.value.color && (c.isAdmin <==> stored.value.admin == 1))
  {
    match stored
    case None => NewClient(PlayerUuid(cfg, addr), roll, color)
    case Some(d) => WrapClient(d.uuid, d.username, d.admin == 1, d.color)
  }

  function WindowOf(rl: map<string, seq<int>>, key: string): seq<int> {
    if key in rl then rl[key] else []
  }

  // ---------------------------------------------------------------------
  // The invariant, one part per concern.

  /** Every room is stored under its own name. */
  ghost predicate RoomsKeyed(rooms: map<string, Room>) {
    forall n :: n in rooms ==> rooms[n].name == n
  }

  /** Room members and owners are known sockets with a player. */
  ghost predicate Seated(ss: map<Sid, Session>, c: Sid) {
    c in ss && ss[c].client.Some?
  }
  ghost predicate RoomOk(r: Room, ss: map<Sid, Session>) {
    (forall c :: c in r.clients ==> Seated(ss, c))
    && (r.owner.Some? ==> Seated(ss, r.owner.value))
  }
  ghost predicate SessionsOk(rooms: map<string, Room>, ss: map<Sid, Session>) {
    forall n :: n in rooms ==> RoomOk(rooms[n], ss)
  }

  ghost predicate SidsBelow(ss: map<Sid, Session>, next: nat) {
    forall c :: c in ss ==> c < next
  }

  ghost predicate TimersBelow(timers: map<nat, Pending>, next: nat) {
    forall t :: t in timers ==> t < next
  }

  ghost predicate Distinct(order: seq<string>) {
    forall i, j :: 0 <= i < j < |order| ==> order[i] != order[j]
  }

  /** `Object.keys(rooms)`: each room once, in creation order. */
  ghost predicate OrderMatches(order: seq<string>, rooms: map<string, Room>) {
    Distinct(order) && (forall n :: n in order <==> n in rooms)
  }

  /** The key order after `delete rooms[n]`. */
  function Unlisted(order: seq<string>, n: string): (r: seq<string>)
    ensures forall x :: x in r <==> x in order && x != n
  {
    if order == [] then []
    else (if order[0] == n then [] else [order[0]]) + Unlisted(order[1..], n)
  }

  lemma {:induction false} UnlistedDistinct(order: seq<string>, n: string)
    requires Distinct(order)
    ensures Distinct(Unlisted(order, n))
  {
    if order != [] {
      UnlistedDistinct(order[1..], n);
      var rest := Unlisted(order[1..], n);
      if order[0] != n {
        assert order[0] !in order[1..];
        forall i, j | 0 <= i < j < |[order[0]] + rest|
          ensures ([order[0]] + rest)[i] != ([order[0]] + rest)[j]
        {
          if i == 0 {
            assert ([order[0]] + rest)[j] == rest[j - 1];
            assert rest[j - 1] in rest;
          } else {
            assert ([order[0]] + rest)[i] == rest[i - 1];
            assert ([order[0]] + rest)[j] == rest[j - 1];
          }
        }
      } else {
        assert [] + rest == rest;
      }
    }
  }

  /** Removing a room and its key keeps the key order matching. */
  lemma OrderUnlisted(order: seq<string>, rooms: map<string, Room>, n: string)
    requires OrderMatches(order, rooms)
    ensures OrderMatches(Unlisted(order, n), rooms - {n})
  {
    UnlistedDistinct(order, n);
  }

  /** Adding a new room at the end of the key order keeps it matching. */
  lemma OrderAppended(order: seq<string>, rooms: map<string, Room>, n: string, r: Room)
    requires OrderMatches(order, rooms) && n !in rooms
    ensures OrderMatches(order + [n], rooms[n := r])
  {
    assert n !in order;
    forall i, j | 0 <= i < j < |order + [n]|
      ensures (order + [n])[i] != (order + [n])[j]
    {
      if j == |order| {
        assert (order + [n])[i] == order[i];
        assert order[i] in order;
      }
    }
  }

  /** A table whose sockets are the same and none of which lost its player. */
  ghost predicate ClientsKept(ss: map<Sid, Session>, ss': map<Sid, Session>) {
    ss'.Keys == ss.Keys && forall c :: c in ss && ss[c].client.Some? ==> ss'[c].client.Some?
  }

  lemma SessionsOkKept(rooms: map<string, Room>, ss: map<Sid, Session>, ss': map<Sid, Session>)
    requires SessionsOk(rooms, ss) && ClientsKept(ss, ss')
    ensures SessionsOk(rooms, ss')
  {
  }

  /** Changing one socket keeps the invariant when a socket with a player keeps one. */
  lemma SessionsOkUpdate(rooms: map<string, Room>, ss: map<Sid, Session>, c: Sid, s: Session)
    requires SessionsOk(rooms, ss)
    requires c in ss && ss[c].client.Some? ==> s.client.Some?
    ensures SessionsOk(rooms, ss[c := s])
  {
  }

  /** Replacing one room keeps the invariant when its members and owner are sockets with a player. */
  lemma SessionsOkRoom(rooms: map<string, Room>, ss: map<Sid, Session>, n: string, r: Room)
    requires SessionsOk(rooms, ss) && RoomOk(r, ss)
    ensures SessionsOk(rooms[n := r], ss)
  {
  }

  lemma SendAllKeeps(rooms: map<string, Room>, ss: map<Sid, Session>, c: Sid, fs: seq<Frame>)
    requires SessionsOk(rooms, ss)
    ensures SessionsOk(rooms, SendAll(ss, c, fs)) && SendAll(ss, c, fs).Keys == ss.Keys
  {
    assert ClientsKept(ss, SendAll(ss, c, fs));
  }

  lemma OutboxesKeepClients(ss: map<Sid, Session>, ss': map<Sid, Session>)
    requires OutboxesOnly(ss, ss')
    ensures ClientsKept(ss, ss')
  {
    forall c | c in ss && ss[c].client.Some?
      ensures ss'[c].client.Some?
    {
      assert ss'[c] == ss[c].(outbox := ss'[c].outbox);
    }
  }

  /** Every socket of every room, rooms in key order (who `broadcastRoomList` reaches). */
  function Listeners(rooms: map<string, Room>, order: seq<string>): seq<Sid> {
    if order == [] then []
    else
      var n := order[|order| - 1];
      Listeners(rooms, order[..|order| - 1]) + (if n in rooms then rooms[n].clients else [])
  }

  /** The room list each socket is sent, as seen by that socket. */
  function ListFor(rooms: map<string, Room>, ss: map<Sid, Session>, order: seq<string>): Sid -> Frame {
    c => if c in ss then RoomListFrame(rooms, ss, order, ss[c]) else Binary([])
  }

  /** The check the dispatcher makes before most handlers: `ws.roomName && rooms[ws.roomName] && ws.client`. */
  predicate InRoom(rooms: map<string, Room>, s: Session) {
    s.HasRoom() && s.RoomKey() in rooms && s.client.Some?
  }

  /** The gating of the note handlers: in a room, the piano enabled, and not vanished. */
  predicate MayPlay(rooms: map<string, Room>, s: Session) {
    InRoom(rooms, s) && !rooms[s.RoomKey()].disablePiano && !IsVanished(s)
  }

  /** The reply to a ping: the server's uptime in milliseconds, four bytes little-endian. */
  function PongFrame(uptime: int): (f: Frame)
    ensures f.Binary? && |f.bytes| == 5 && f.bytes[0] == PONG
    ensures BytesToInt(f.bytes[1..]) == ToInt32(uptime)
  {
    var b := IntToBytes(uptime);
    IntRoundTrip(uptime);
    assert ([PONG] + b)[1..] == b;
    Binary([PONG] + b)
  }

  /** `[SET_NAME, seat] ++ name`. */
  function NameFrame(s: Session, name: string): Frame {
    WithText([SET_NAME, s.SeatByte()], name)
  }

  /** A room after its member `c` (whose player is `uuid`) left: out of the member list and the cursor table. */
  function Departed(r: Room, c: Sid, uuid: string): (r': Room)
    ensures forall d :: d in r'.clients <==> d in r.clients && d != c
    ensures FindCursor(r'.cursors, uuid).None?
    ensures forall u :: u != uuid ==> FindCursor(r'.cursors, u) == FindCursor(r.cursors, u)
    ensures r' == r.(clients := r'.clients, cursors := r'.cursors)
  {
    r.(clients := Others(r.clients, c), cursors := RemoveCursor(r.cursors, uuid))
  }

  /** The room after its member `c` left; when that member owned it, the handover timer `t` is armed. */
  function LeftRoom(r: Room, c: Sid, uuid: string, owner: bool, t: nat): Room {
    Departed(if owner then r.(transferTimer := Some(t)) else r, c, uuid)
  }

  /** The timers once the room's pending handover, if any, is cleared. */
  function Disarmed(timers: map<nat, Pending>, t: Option<nat>): (r: map<nat, Pending>)
    ensures forall k :: k in r <==> k in timers && t != Some(k)
    ensures forall k :: k in r ==> r[k] == timers[k]
  {
    if t.Some? then timers - {t.value} else timers
  }

  /** A room with nobody in it that is not persistent is deleted. */
  predicate Abandoned(r: Room) {
    r.clients == [] && !r.persistent
  }

  /** The rooms after `leaveRoom` looked at room `n`. */
  function Vacated(rooms: map<string, Room>, n: string): (r: map<string, Room>)
    requires n in rooms
    ensures forall m :: m in r <==> m in rooms && (m != n || !Abandoned(rooms[n]))
    ensures forall m :: m in r ==> r[m] == rooms[m]
  {
    if Abandoned(rooms[n]) then rooms - {n} else rooms
  }

  /** The key order after `leaveRoom` looked at room `n`. */
  function VacatedOrder(rooms: map<string, Room>, order: seq<string>, n: string): seq<string>
    requires n in rooms
  {
    if Abandoned(rooms[n]) then Unlisted(order, n) else order
  }

  /** The running cursor flushes after `leaveRoom` looked at room `n`: an empty room's stops. */
  function Stopped(rooms: map<string, Room>, intervals: set<string>, n: string): (r: set<string>)
    requires n in rooms
    ensures forall m :: m in r <==> m in intervals && (m != n || rooms[n].clients != [])
  {
    if rooms[n].clients == [] then intervals - {n} else intervals
  }

  /** The names a plain object inherits from `Object.prototype`. The table
      of cursor flushes is such an object, so a lookup of one of these names
      finds a truthy inherited value even though no flush was started. */
  const INHERITED_KEYS: set<string> := {
    "constructor", "hasOwnProperty", "isPrototypeOf", "propertyIsEnumerable",
    "toLocaleString", "toString", "valueOf", "__proto__",
    "__defineGetter__", "__defineSetter__", "__lookupGetter__", "__lookupSetter__"
  }

  /** The running cursor flushes after `joinRoom` seated a member in room `n`:
      the flush starts unless `cursorUpdateIntervals[n]` is already truthy,
      which it is for a running flush and for an inherited name. */
  function Started(intervals: set<string>, n: string): (r: set<string>)
    ensures n in r <==> n in intervals || n !in INHERITED_KEYS
    ensures forall m :: m != n ==> (m in r <==> m in intervals)
  {
    if n in INHERITED_KEYS then intervals else intervals + {n}
  }

  /** No flush is ever started under an inherited name: starting flushes
      keeps the table free of them, so such a room never gets a CURSOR_UPDATE. */
  lemma StartedNeverInherited(intervals: set<string>, n: string)
    requires intervals !! INHERITED_KEYS
    ensures Started(intervals, n) !! INHERITED_KEYS
    ensures "toString" !in Started(intervals, "toString")
  {
  }

  const VANISHED_NOTICE := "You are in vanished mode. Others won't see you."
  const NEW_OWNER_NOTICE := "You are now the owner of this room."

  /** The room a joiner of `n` enters: the existing one, or a new one it owns. */
  function JoinBase(rooms: map<string, Room>, n: string, c: Sid, now: int, hidden: bool): Room {
    if n in rooms then rooms[n] else NewRoom(n, Some(c), now, false, hidden)
  }

  /**
   * What `joinRoom` sends the joiner itself, in order: its uuid, every
   * member that is not vanished (itself included), then the rest.
   */
  function Welcome(s: Session, r: Room, view: map<Sid, Session>, owner: Option<string>): seq<Frame>
    requires s.client.Some?
  {
    [WithText([JOIN_ROOM], s.client.value.uuid)] + PlayerFrames(view, r.clients, owner) + Epilogue(r)
  }

  /** The end of the welcome: the cursors if there are any, and the settings.
      A vanished joiner's notice is not part of it: it waits on a timer. */
  function Epilogue(r: Room): seq<Frame> {
    var snap := Cursors.SnapshotPayload(r.cursors);
    (if snap != [] then [Binary([CURSOR_UPDATE] + snap)] else [])
    + [Binary([ROOM_SETTINGS] + SettingsBytes(r))]
  }

  /** Whether the joiner of room `n` is its owner coming back while a handover is pending. */
  predicate OwnerBack(ss: map<Sid, Session>, rooms: map<string, Room>, c: Sid, n: string)
    requires c in ss && n in rooms
  {
    rooms[n].transferTimer.Some? && ss[c].client.Some? && OwnerUuid(ss, rooms[n]) == Some(ss[c].client.value.uuid)
  }

  /**
   * The table once the seated joiner `c` of room `n` was announced to the
   * others, was welcomed, and everyone got the room list.
   */
  function Greeted(ss: map<Sid, Session>, rooms: map<string, Room>, order: seq<string>, c: Sid, n: string): map<Sid, Session>
    requires c in ss && n in rooms && ss[c].client.Some?
  {
    var owner := OwnerUuid(ss, rooms[n]);
    var ss2 := Deliver(ss, Recipients(rooms, ss, c, false), PlayerJoinedFrame(ss[c], owner));
    var ss3 := SendAll(ss2, c, Welcome(ss[c], rooms[n], ss, owner));
    DeliverEach(ss3, Listeners(rooms, order), ListFor(rooms, ss3, order))
  }

  /** The handover timer of a room does its work: the room is there, not empty, and its old owner did not come back. */
  predicate HandsOver(rooms: map<string, Room>, ss: map<Sid, Session>, p: Pending) {
    p.roomName in rooms && rooms[p.roomName].clients != [] && !IsUuidInRoom(rooms, ss, p.leaverUuid, p.roomName)
  }

  // ---------------------------------------------------------------------
  // The JOIN_ROOM request and the chat history.

  const ALREADY_HERE_NOTICE := "You are already in this room."
  const ROOM_FULL_NOTICE := "This room is full."

  /** The full-room refusal: the name as sent is a room with ten or more members, and the joiner is not vanished. */
  predicate RoomFull(rooms: map<string, Room>, s: Session, target: string) {
    RoomExists(rooms, target) && |rooms[target].clients| >= MAX_PLAYERS_PER_ROOM && !IsVanished(s)
  }

  /** How the JOIN_ROOM branch answers a request for the validated name `target`, in the order it checks. */
  /** The fields of a server that its message handlers change, read at
      one moment: the state each handler's effect is stated against. */
  datatype Snapshot = Snapshot(sessions: map<Sid, Session>, rooms: map<string, Room>, roomOrder: seq<string>,
                               cursorIntervals: set<string>, timers: map<nat, Pending>, nextTimer: nat,
                               notices: seq<Sid>, store: seq<StoreOp>, adminPhraseUsed: bool)

  /**
   * `leaveRoom(ws)` taking the server from `pre` to `post`. A socket with no
   * room, or whose room is gone, changes nothing. A socket that is not a
   * member only has the room tidied. A member is announced as gone, arms
   * the handover when it owned the room, loses its seat and cursor, and the
   * room is tidied; then everyone gets the room list. Only outboxes change
   * among the sockets.
   */
  ghost predicate RoomLeft(pre: Snapshot, post: Snapshot, c: Sid)
  {
    && c in pre.sessions
    && post.notices == pre.notices && post.store == pre.store && post.adminPhraseUsed == pre.adminPhraseUsed
    && OutboxesOnly(pre.sessions, post.sessions)
    && var s := pre.sessions[c];
       var n := s.RoomKey();
       && (!s.HasRoom() || n !in pre.rooms ==>
             post.sessions == pre.sessions && post.rooms == pre.rooms && post.roomOrder == pre.roomOrder
             && post.cursorIntervals == pre.cursorIntervals && post.timers == pre.timers && post.nextTimer == pre.nextTimer)
       && (s.HasRoom() && n in pre.rooms && c !in pre.rooms[n].clients ==>
             post.timers == pre.timers && post.nextTimer == pre.nextTimer
             && post.rooms == Vacated(pre.rooms, n) && post.roomOrder == VacatedOrder(pre.rooms, pre.roomOrder, n)
             && post.cursorIntervals == Stopped(pre.rooms, pre.cursorIntervals, n)
             && post.sessions == DeliverEach(pre.sessions, Listeners(post.rooms, post.roomOrder), ListFor(post.rooms, pre.sessions, post.roomOrder)))
       && (s.HasRoom() && n in pre.rooms && c in pre.rooms[n].clients ==>
             s.client.Some?
             && var uuid := s.client.value.uuid;
                var owner := OwnerUuid(pre.sessions, pre.rooms[n]) == Some(uuid);
                var mid := pre.rooms[n := LeftRoom(pre.rooms[n], c, uuid, owner, pre.nextTimer)];
                var ss := Deliver(pre.sessions, Recipients(pre.rooms, pre.sessions, c, false), WithText([PLAYER_LEFT], uuid));
                && (owner ==> post.timers == Disarmed(pre.timers, pre.rooms[n].transferTimer)[pre.nextTimer := Pending(n, uuid)]
                              && post.nextTimer == pre.nextTimer + 1)
                && (!owner ==> post.timers == pre.timers && post.nextTimer == pre.nextTimer)
                && post.rooms == Vacated(mid, n) && post.roomOrder == VacatedOrder(mid, pre.roomOrder, n)
                && post.cursorIntervals == Stopped(mid, pre.cursorIntervals, n)
                && post.sessions == DeliverEach(ss, Listeners(post.rooms, post.roomOrder), ListFor(post.rooms, ss, post.roomOrder)))
  }

  /** `leaveRoom` returns at once for a socket without a room. */
  lemma StayPut(s: Snapshot, c: Sid)
    requires c in s.sessions && !s.sessions[c].HasRoom()
    ensures RoomLeft(s, s, c)
  {
  }

  /** After `leaveRoom`, a socket that had a room is a member of it no more. */
  lemma LeftForGood(pre: Snapshot, post: Snapshot, c: Sid)
    requires RoomLeft(pre, post, c) && pre.sessions[c].HasRoom()
    ensures var n := pre.sessions[c].RoomKey();
      n in post.rooms ==> c !in post.rooms[n].clients
  {
    var s := pre.sessions[c];
    var n := s.RoomKey();
    if s.HasRoom() && n in pre.rooms && c in pre.rooms[n].clients && n in post.rooms {
      var uuid := s.client.value.uuid;
      var owner := OwnerUuid(pre.sessions, pre.rooms[n]) == Some(uuid);
      var mid := pre.rooms[n := LeftRoom(pre.rooms[n], c, uuid, owner, pre.nextTimer)];
      assert post.rooms[n] == mid[n];
    } else if s.HasRoom() && n in pre.rooms && n in post.rooms {
      assert post.rooms[n] == pre.rooms[n];
    }
  }

  /**
   * `joinRoom(ws, target)` taking the server from `pre` to `post`, with the
   * joiner given seat `seat`: the room (created when missing, last in key
   * order) gets the joiner as its last member, the joiner takes the least
   * free seat, the others get PLAYER_JOINED, the joiner its welcome, and
   * everyone the room list; the cursor flush starts, a vanished joiner's
   * notice is queued, and a pending handover is cancelled when the joiner
   * owns the room.
   */
  ghost predicate RoomJoined(pre: Snapshot, post: Snapshot, c: Sid, target: string, now: int, seat: nat)
  {
    && c in pre.sessions && pre.sessions[c].client.Some?
    && post.store == pre.store && post.adminPhraseUsed == pre.adminPhraseUsed && post.nextTimer == pre.nextTimer
    && post.notices == pre.notices + (if IsVanished(pre.sessions[c]) then [c] else [])
    && var n := StripHidden(target).0;
       var base := JoinBase(pre.rooms, n, c, now, StripHidden(target).1);
       var ss1 := pre.sessions[c := pre.sessions[c].(roomName := Some(n), clientId := Some(seat))];
       var rooms1 := pre.rooms[n := base.(clients := base.clients + [c])];
       var cancel := OwnerBack(ss1, rooms1, c, n);
       && post.roomOrder == (if n in pre.rooms then pre.roomOrder else pre.roomOrder + [n])
       && post.cursorIntervals == Started(pre.cursorIntervals, n)
       && LeastFree(SeatIds(pre.sessions, base.clients + [c]), seat)
       && post.sessions == Greeted(ss1, rooms1, post.roomOrder, c, n)
       && post.rooms == (if cancel then rooms1[n := rooms1[n].(transferTimer := None)] else rooms1)
       && post.timers == (if cancel then pre.timers - {rooms1[n].transferTimer.value} else pre.timers)
  }

  /** After `joinRoom` the joiner, with the same player, is a member of the
      room it asked for, that room is its room, and it holds the seat it was given. */
  lemma JoinedMember(pre: Snapshot, post: Snapshot, c: Sid, target: string, now: int, seat: nat)
    requires RoomJoined(pre, post, c, target, now, seat)
    ensures var n := StripHidden(target).0;
      && n in post.rooms && c in post.rooms[n].clients && c in post.sessions
      && post.sessions[c] == pre.sessions[c].(roomName := Some(n), clientId := Some(seat), outbox := post.sessions[c].outbox)
  {
    var n := StripHidden(target).0;
    var base := JoinBase(pre.rooms, n, c, now, StripHidden(target).1);
    var ss1 := pre.sessions[c := pre.sessions[c].(roomName := Some(n), clientId := Some(seat))];
    var rooms1 := pre.rooms[n := base.(clients := base.clients + [c])];
    GreetedOutboxes(ss1, rooms1, post.roomOrder, c, n);
    assert c in rooms1[n].clients;
  }

  /** `sendChatHistory(ws)` taking the server from `pre` to `post`. */
  ghost predicate HistorySent(pre: Snapshot, post: Snapshot, c: Sid, directory: string -> Option<StoredClient>)
  {
    && c in pre.sessions
    && var n := pre.sessions[c].RoomKey();
       post == pre.(sessions := if pre.sessions[c].HasRoom() && n in pre.rooms
                                then SendTo(pre.sessions, c, HistoryFrame(pre.rooms[n], directory))
                                else pre.sessions)
  }

  /**
   * An accepted JOIN_ROOM: `leaveRoom`, then `joinRoom`, then
   * `sendChatHistory`, each on the state the one before left. In the end the
   * socket, with the same player, is a member of the room named by the
   * target without its `/hidden:` prefix, that is its room, and (unless the
   * name is empty, which `sendChatHistory` takes as no room) the room's
   * history is the last frame it was sent.
   */
  ghost predicate Relocated(pre: Snapshot, post: Snapshot, c: Sid, target: string, now: int, directory: string -> Option<StoredClient>)
  {
    && c in pre.sessions
    && Arrived(pre, post, c, target, directory)
    && exists left: Snapshot, joined: Snapshot, seat: nat :: Steps(pre, left, joined, post, c, target, now, directory, seat)
  }

  /** Where an accepted join leaves the socket: with the same player, a
      member of the room named by `target` without its `/hidden:` prefix,
      that room its room, and (unless the name is empty) the room's history
      the last frame it was sent. */
  ghost predicate Arrived(pre: Snapshot, post: Snapshot, c: Sid, target: string, directory: string -> Option<StoredClient>)
    requires c in pre.sessions
  {
    var n := StripHidden(target).0;
    && n in post.rooms && c in post.rooms[n].clients && c in post.sessions && post.sessions[c].roomName == Some(n)
    && post.sessions[c].client == pre.sessions[c].client
    && (n != "" ==> |post.sessions[c].outbox| > 0 && post.sessions[c].outbox[|post.sessions[c].outbox| - 1] == HistoryFrame(post.rooms[n], directory))
  }

  /** An arrival reached through the three steps is a relocation. */
  lemma StepsRelocate(pre: Snapshot, left: Snapshot, joined: Snapshot, post: Snapshot, c: Sid, target: string, now: int,
                      directory: string -> Option<StoredClient>, seat: nat)
    requires c in pre.sessions && Arrived(pre, post, c, target, directory)
    requires Steps(pre, left, joined, post, c, target, now, directory, seat)
    ensures Relocated(pre, post, c, target, now, directory)
  {
  }

  /** The three steps of an accepted join, through the states `left` (after
      leaving) and `joined` (after joining). */
  ghost predicate Steps(pre: Snapshot, left: Snapshot, joined: Snapshot, post: Snapshot, c: Sid, target: string, now: int, directory: string -> Option<StoredClient>, seat: nat)
  {
    RoomJoined(left, joined, c, target, now, seat) && RoomLeft(pre, left, c) && HistorySent(joined, post, c, directory)
  }

  datatype JoinAnswer = NoPlayer | AlreadyHere | Full | Go

  function JoinVerdict(rooms: map<string, Room>, ss: map<Sid, Session>, c: Sid, target: string): JoinAnswer
    requires c in ss
  {
    var s := ss[c];
    if s.client.None? then NoPlayer
    else if IsUuidInRoom(rooms, ss, s.client.value.uuid, target) then AlreadyHere
    else if RoomFull(rooms, s, target) then Full
    else Go
  }

  /** A player who is a member of the room it asks for is always turned away as already there, full or not. */
  lemma MemberIsAlreadyHere(rooms: map<string, Room>, ss: map<Sid, Session>, c: Sid, target: string)
    requires c in ss && ss[c].client.Some? && target in rooms && c in rooms[target].clients
    ensures JoinVerdict(rooms, ss, c, target) == AlreadyHere
  {
    assert UuidOf(ss, c) == Some(ss[c].client.value.uuid);
  }

  /**
   * The full-room check looks the name up as sent, while `joinRoom` cuts a
   * "/hidden:" prefix off: asking for "/hidden:" + n passes validation
   * unchanged and is never refused as full (unless a room of that very name
   * exists), yet it is a join of room n, however full n is.
   */
  lemma HiddenPrefixBypass(rooms: map<string, Room>, s: Session, n: string)
    requires HIDDEN_PREFIX + n !in rooms
    requires IsClean(HIDDEN_PREFIX + n) && Trim(HIDDEN_PREFIX + n) == HIDDEN_PREFIX + n && Utf16Length(n) <= 52
    ensures ValidateRoomName(HIDDEN_PREFIX + n) == HIDDEN_PREFIX + n
    ensures !RoomFull(rooms, s, HIDDEN_PREFIX + n)
    ensures StripHidden(HIDDEN_PREFIX + n) == (n, true)
  {
    Utf16LengthBmp(HIDDEN_PREFIX);
    Utf16LengthAppend(HIDDEN_PREFIX, n);
    ValidateKeeps(HIDDEN_PREFIX + n);
    assert (HIDDEN_PREFIX + n)[..|HIDDEN_PREFIX|] == HIDDEN_PREFIX;
  }

  /** `[CHAT_HISTORY] ++ JSON` of the room's history, each entry with its author's stored name. */
  function HistoryFrame(r: Room, directory: string -> Option<StoredClient>): Frame {
    WithJson([CHAT_HISTORY], HistoryJson(r.chat, directory))
  }

  lemma {:induction false} OutboxesOnlyTrans(a: map<Sid, Session>, b: map<Sid, Session>, c: map<Sid, Session>)
    requires OutboxesOnly(a, b) && OutboxesOnly(b, c)
    ensures OutboxesOnly(a, c)
  {
    forall d | d in a
      ensures c[d] == a[d].(outbox := c[d].outbox)
    {
      assert b[d] == a[d].(outbox := b[d].outbox);
      assert c[d] == b[d].(outbox := c[d].outbox);
    }
  }

  /** Greeting a joiner only adds frames to outboxes. */
  lemma GreetedOutboxes(ss: map<Sid, Session>, rooms: map<string, Room>, order: seq<string>, c: Sid, n: string)
    requires c in ss && n in rooms && ss[c].client.Some?
    ensures OutboxesOnly(ss, Greeted(ss, rooms, order, c, n))
  {
    var owner := OwnerUuid(ss, rooms[n]);
    var ss2 := Deliver(ss, Recipients(rooms, ss, c, false), PlayerJoinedFrame(ss[c], owner));
    var ss3 := SendAll(ss2, c, Welcome(ss[c], rooms[n], ss, owner));
    DeliverOutboxesOnly(ss, Recipients(rooms, ss, c, false), PlayerJoinedFrame(ss[c], owner));
    assert OutboxesOnly(ss2, ss3);
    OutboxesOnlyTrans(ss, ss2, ss3);
    DeliverEachOutboxesOnly(ss3, Listeners(rooms, order), ListFor(rooms, ss3, order));
    OutboxesOnlyTrans(ss, ss3, Greeted(ss, rooms, order, c, n));
  }

  // ---------------------------------------------------------------------
  // Chat messages and the admin commands (server/src/services/chatManager.js).

  /** `[SEND_CHAT, seat] ++ JSON [id, text]`. */
  function ChatFrame(s: Session, id: string, m: string): Frame {
    WithJson([SEND_CHAT, s.SeatByte()], JArr([JStr(id), JStr(m)]))
  }

  /** `[DELETE_MESSAGE] ++ id`. */
  function DeleteFrame(id: string): Frame {
    WithText([DELETE_MESSAGE], id)
  }

  const PURGE_HELP := ["purge: Delete all chat messages sent by this player.", "Usage: /purge <uuid>"]
  const DEL_HELP := ["del: Delete a specific chat message.", "Usage: /del <message_id>"]
  const SETCOLOR_HELP := ["setcolor: Set a player's color.", "Usage: /setcolor <uuid> <hex color>"]
  const SETNAME_HELP := ["setname: Set a player's name.", "Usage: /setname <uuid> <new name>"]
  const VANISH_OFF_NOTICE := "Vanished mode disabled."
  const VANISH_ON_NOTICE := "Vanished mode enabled."
  const COLOR_DONE_NOTICE := "Color updated. They must reconnect to see changes."
  const NAME_DONE_NOTICE := "Name updated. They must reconnect to see changes."

  /** The help a command prints when its arguments are missing; none for the others. */
  function UsageLines(cmd: Chat.Command): seq<string> {
    match cmd
    case PurgeUsage => PURGE_HELP
    case DelUsage => DEL_HELP
    case SetColorUsage => SETCOLOR_HELP
    case SetNameUsage => SETNAME_HELP
    case _ => []
  }

  /** One system message per line. */
  function Notices(lines: seq<string>): (fs: seq<Frame>)
    ensures |fs| == |lines|
  {
    if lines == [] then [] else Notices(lines[..|lines| - 1]) + [SystemMsg(lines[|lines| - 1])]
  }

  /** "Deleted N messages." */
  function PurgedLine(count: nat): string {
    "Deleted " + NatToString(count) + " messages."
  }

  /** "Deleted message with ID x" */
  function DeletedLine(id: string): string {
    "Deleted message with ID " + id
  }

  /** The ids of a run of history entries. */
  function Ids(chat: seq<ChatMessage>): (r: seq<string>)
    ensures |r| == |chat|
  {
    if chat == [] then [] else Ids(chat[..|chat| - 1]) + [chat[|chat| - 1].id]
  }

  lemma IdsSnoc(chat: seq<ChatMessage>, m: ChatMessage)
    ensures Ids(chat + [m]) == Ids(chat) + [m.id]
  {
    assert (chat + [m])[..|chat|] == chat;
  }

  /** The ids /purge has announced after looking at one more history entry. */
  lemma PurgedIdsStep(chat: seq<ChatMessage>, i: nat, uuid: string)
    requires i < |chat|
    ensures Ids(Chat.ByAuthor(chat[..i + 1], uuid))
      == Ids(Chat.ByAuthor(chat[..i], uuid)) + (if chat[i].author == uuid then [chat[i].id] else [])
  {
    assert chat[..i + 1] == chat[..i] + [chat[i]];
    ByAuthorSnoc(chat[..i], chat[i], uuid);
    if chat[i].author == uuid {
      IdsSnoc(Chat.ByAuthor(chat[..i], uuid), chat[i]);
    } else {
      assert Chat.ByAuthor(chat[..i], uuid) + [] == Chat.ByAuthor(chat[..i], uuid);
    }
  }

  lemma DeleteOpsAppend(log: seq<StoreOp>, ids: seq<string>, id: string)
    ensures log + DeleteOps(ids + [id]) == log + DeleteOps(ids) + [DeleteMessage(id)]
  {
    assert (ids + [id])[..|ids|] == ids;
  }

  /** The messages of one author, found front to back, grow by the next entry when it is theirs. */
  lemma {:induction false} ByAuthorSnoc(chat: seq<ChatMessage>, m: ChatMessage, uuid: string)
    ensures Chat.ByAuthor(chat + [m], uuid) == Chat.ByAuthor(chat, uuid) + (if m.author == uuid then [m] else [])
  {
    if chat == [] {
      assert [m][1..] == [];
    } else {
      assert (chat + [m])[1..] == chat[1..] + [m];
      ByAuthorSnoc(chat[1..], m, uuid);
    }
  }

  /** What /purge sends for the ids `ids`, in order: each delete notice to
      the admin itself, then to the others in `to`. */
  function Notified(ss: map<Sid, Session>, c: Sid, to: seq<Sid>, ids: seq<string>): (r: map<Sid, Session>)
    ensures r.Keys == ss.Keys
    decreases |ids|
  {
    if ids == [] then ss
    else
      var f := DeleteFrame(ids[|ids| - 1]);
      Deliver(SendTo(Notified(ss, c, to, ids[..|ids| - 1]), c, f), to, f)
  }

  lemma {:induction false} NotifiedOutboxes(ss: map<Sid, Session>, c: Sid, to: seq<Sid>, ids: seq<string>)
    ensures OutboxesOnly(ss, Notified(ss, c, to, ids))
    decreases |ids|
  {
    if ids != [] {
      var f := DeleteFrame(ids[|ids| - 1]);
      var ss1 := Notified(ss, c, to, ids[..|ids| - 1]);
      NotifiedOutboxes(ss, c, to, ids[..|ids| - 1]);
      assert OutboxesOnly(ss1, SendTo(ss1, c, f));
      OutboxesOnlyTrans(ss, ss1, SendTo(ss1, c, f));
      DeliverOutboxesOnly(SendTo(ss1, c, f), to, f);
      OutboxesOnlyTrans(ss, SendTo(ss1, c, f), Notified(ss, c, to, ids));
    }
  }

  /** When the admin is not among `to`, it is sent exactly one notice per purged id, in order. */
  lemma {:induction false} NotifiedAdmin(ss: map<Sid, Session>, c: Sid, to: seq<Sid>, ids: seq<string>)
    requires c in ss && c !in to
    ensures Notified(ss, c, to, ids)[c] == ss[c].(outbox := ss[c].outbox + Frames(ids))
    decreases |ids|
  {
    if ids != [] {
      var f := DeleteFrame(ids[|ids| - 1]);
      var ss1 := Notified(ss, c, to, ids[..|ids| - 1]);
      NotifiedAdmin(ss, c, to, ids[..|ids| - 1]);
      DeliverSkips(SendTo(ss1, c, f), to, f, c);
      assert ss[c].outbox + Frames(ids[..|ids| - 1]) + [f] == ss[c].outbox + Frames(ids);
    }
  }

  /** The delete notices for a run of ids. */
  function Frames(ids: seq<string>): (fs: seq<Frame>)
    ensures |fs| == |ids|
  {
    if ids == [] then [] else Frames(ids[..|ids| - 1]) + [DeleteFrame(ids[|ids| - 1])]
  }

  /** The store deletes /purge issues in a persistent room, one per id. */
  function DeleteOps(ids: seq<string>): (ops: seq<StoreOp>)
    ensures |ops| == |ids|
  {
    if ids == [] then [] else DeleteOps(ids[..|ids| - 1]) + [DeleteMessage(ids[|ids| - 1])]
  }

  /** The /list lines for the members, one per socket that has a player. */
  function MemberLines(ss: map<Sid, Session>, members: seq<Sid>): seq<Frame> {
    if members == [] then []
    else
      var d := members[|members| - 1];
      MemberLines(ss, members[..|members| - 1])
      + (if d in ss && ss[d].client.Some? then [SystemMsg(Chat.MemberLine(ss[d].client.value))] else [])
  }

  /** The /list reply: the head count, then a line per member. */
  function ListReply(ss: map<Sid, Session>, members: seq<Sid>): seq<Frame> {
    [SystemMsg(Chat.PlayerCountLine(|members|))] + MemberLines(ss, members)
  }

  /** In a room whose members all have players, /list names each member once, in member order. */
  lemma {:induction false} MemberLinesComplete(ss: map<Sid, Session>, members: seq<Sid>)
    requires forall d :: d in members ==> d in ss && ss[d].client.Some?
    ensures |MemberLines(ss, members)| == |members|
    ensures forall i :: 0 <= i < |members| ==>
      MemberLines(ss, members)[i] == SystemMsg(Chat.MemberLine(ss[members[i]].client.value))
    decreases |members|
  {
    if members != [] {
      var init := members[..|members| - 1];
      var d := members[|members| - 1];
      assert forall e :: e in init ==> e in members;
      MemberLinesComplete(ss, init);
      assert d in members;
      var lines := MemberLines(ss, members);
      assert lines == MemberLines(ss, init) + [SystemMsg(Chat.MemberLine(ss[d].client.value))];
      forall i | 0 <= i < |members|
        ensures lines[i] == SystemMsg(Chat.MemberLine(ss[members[i]].client.value))
      {
        if i < |init| {
          assert members[i] == init[i];
        }
      }
    }
  }

  /** The name /vanish gives: a vanished player loses the leading "#", anyone else gains one. */
  function VanishName(s: Session): string
    requires s.client.Some?
  {
    var u := s.client.value.username;
    if IsVanished(s) then u[1..] else "#" + u
  }

  /** For an admin the renaming is the "#" toggle; vanishing always hides the
      player, and coming back after it restores the name. */
  lemma VanishToggles(s: Session)
    requires s.client.Some? && s.client.value.isAdmin
    ensures var u := s.client.value.username;
      var s' := s.(client := Some(s.client.value.(username := VanishName(s))));
      VanishName(s) == Chat.ToggleVanish(u)
      && (IsVanished(s) ==> "#" + VanishName(s) == u)
      && (!IsVanished(s) ==> IsVanished(s') && VanishName(s') == u)
  {
    var u := s.client.value.username;
    assert ("#" + u)[..1] == "#";
    assert ("#" + u)[1..] == u;
  }

  // ---------------------------------------------------------------------
  // The dispatcher's table (server/src/handlers/websocketHandlers.js).

  /** The rate-limit action and budget of each opcode `handleMessage` knows. */
  function ActionOf(op: Byte): Option<(string, Limit)> {
    if op == JOIN_ROOM then Some(("joinRoom", JOIN_ROOM_LIMIT))
    else if op == SET_CURSOR_POS then Some(("setCursorPos", SET_CURSOR_POS_LIMIT))
    else if op == PRESS_NOTE then Some(("playNote", PLAY_NOTE_LIMIT))
    else if op == RELEASE_NOTE then Some(("releaseNote", RELEASE_NOTE_LIMIT))
    else if op == BATCH_NOTES then Some(("batchNotes", BATCH_NOTES_LIMIT))
    else if op == SEND_CHAT then Some(("sendChat", SEND_CHAT_LIMIT))
    else if op == SET_NAME then Some(("setName", SET_NAME_LIMIT))
    else if op == UPDATE_ROOM_SETTINGS then Some(("setRoomSettings", SET_ROOM_SETTINGS_LIMIT))
    else if op == PING then Some(("pingPong", PING_PONG_LIMIT))
    else None
  }

  /** A message `handleMessage` hands to its handler: a known opcode whose
      window, for the sender's address, still has room. */
  predicate Passes(rl: map<string, seq<int>>, s: Session, data: seq<Byte>, now: int) {
    && |data| > 0 && ActionOf(data[0]).Some?
    && var (action, lim) := ActionOf(data[0]).value;
       Allowed(WindowOf(rl, RateKey(s.ip, action)), now, lim)
  }

  /** Every handler is charged to a window of its own: two opcodes of one
      address never share a window, nor share the connection limit's. */
  lemma ActionsDistinct(ip: Option<string>, a: Byte, b: Byte)
    requires ActionOf(a).Some? && ActionOf(b).Some?
    ensures a != b ==> RateKey(ip, ActionOf(a).value.0) != RateKey(ip, ActionOf(b).value.0)
    ensures RateKey(ip, ActionOf(a).value.0) != RateKey(ip, "connection")
  {
    RateKeyInjective(ip, ActionOf(a).value.0, ActionOf(b).value.0);
    RateKeyInjective(ip, ActionOf(a).value.0, "connection");
  }

  lemma HiddenPrefixClean()
    ensures IsClean(HIDDEN_PREFIX)
  {
    assert forall c :: c in HIDDEN_PREFIX ==> c in {'/', 'h', 'i', 'd', 'e', 'n', ':'};
  }

  /** A join of "/hidden:" passes validation unchanged and seats the player
      in a room named "", which every `leaveRoom` then skips as "no room". */
  lemma HiddenEmptyName()
    ensures ValidateRoomName(HIDDEN_PREFIX) == HIDDEN_PREFIX
    ensures StripHidden(HIDDEN_PREFIX) == ("", true)
  {
    HiddenPrefixClean();
    TrimUnpadded(HIDDEN_PREFIX);
    Utf16LengthBmp(HIDDEN_PREFIX);
    ValidateKeeps(HIDDEN_PREFIX);
    assert HIDDEN_PREFIX[..|HIDDEN_PREFIX|] == HIDDEN_PREFIX;
  }

  class Server {
    var sessions: map<Sid, Session>
    var nextSid: nat
    var rooms: map<string, Room>
    var roomOrder: seq<string>
    var rateLimits: map<string, seq<int>>
    var concurrent: map<string, int>
    var adminPhraseUsed: bool
    var cursorIntervals: set<string>
    var timers: map<nat, Pending>
    var nextTimer: nat
    /** The sockets waiting for their vanished-mode notice, in the order the
        500ms timers were armed; timers of one delay fire in that order. */
    var notices: seq<Sid>
    var store: seq<StoreOp>
    const config: Config

    /** The handlers' part of the state, now. */
    ghost function Snap(): Snapshot
      reads this
    {
      Snapshot(sessions, rooms, roomOrder, cursorIntervals, timers, nextTimer, notices, store, adminPhraseUsed)
    }

    ghost predicate Valid()
      reads this
    {
      RoomsKeyed(rooms) && SessionsOk(rooms, sessions) && SidsBelow(sessions, nextSid)
      && TimersBelow(timers, nextTimer) && OrderMatches(roomOrder, rooms) && CountsPositive(concurrent)
    }

    /** Start-up: the persistent lobby, with no owner, and nothing else. */
    constructor (config: Config, now: int)
      ensures Valid() && this.config == config
      ensures sessions == map[] && roomOrder == [DEFAULT_ROOM_NAME]
      ensures rooms == map[DEFAULT_ROOM_NAME := NewRoom(DEFAULT_ROOM_NAME, None, now, true, false)]
      ensures rateLimits == map[] && concurrent == map[] && !adminPhraseUsed
      ensures cursorIntervals == {} && timers == map[] && notices == [] && store == []
    {
      this.config := config;
      sessions := map[];
      nextSid := 0;
      rooms := map[DEFAULT_ROOM_NAME := NewRoom(DEFAULT_ROOM_NAME, None, now, true, false)];
      roomOrder := [DEFAULT_ROOM_NAME];
      rateLimits := map[];
      concurrent := map[];
      adminPhraseUsed := false;
      cursorIntervals := {};
      timers := map[];
      nextTimer := 0;
      notices := [];
      store := [];
    }

    // -------------------------------------------------------------------
    // Sending (server/src/utils/network.js) and the room list.

    /** `broadcastToRoom`: the frame to every other member of the sender's room, in member order. */
    method BroadcastToRoom(sender: Sid, f: Frame, bypass: bool)
      requires sender in sessions
      modifies this`sessions
      ensures sessions == Deliver(old(sessions), Recipients(rooms, old(sessions), sender, bypass), f)
      ensures OutboxesOnly(old(sessions), sessions)
      ensures sessions[sender] == old(sessions)[sender]
    {
      ghost var ss0 := sessions;
      DeliverOutboxesOnly(ss0, Recipients(rooms, ss0, sender, bypass), f);
      DeliverSkips(ss0, Recipients(rooms, ss0, sender, bypass), f, sender);
      var s := sessions[sender];
      if !s.HasRoom() || s.RoomKey() !in rooms {
        return;
      }
      if IsVanished(s) && !bypass {
        return;
      }
      var members := rooms[s.RoomKey()].clients;
      ghost var sent: seq<Sid> := [];
      var i := 0;
      while i < |members|
        invariant 0 <= i <= |members|
        invariant sent == Others(members[..i], sender)
        invariant sessions == Deliver(ss0, sent, f)
      {
        var d := members[i];
        assert members[..i + 1] == members[..i] + [d];
        OthersAppend(members[..i], d, sender);
        if d != sender {
          DeliverAppend(ss0, sent, d, f);
          sessions := SendTo(sessions, d, f);
          sent := sent + [d];
        }
        i := i + 1;
      }
      assert members[..i] == members;
    }

    /** The frame to every socket of `to`, in order (`clients.forEach(c => c.send(f))`). */
    method Multicast(to: seq<Sid>, f: Frame)
      modifies this`sessions
      ensures sessions == Deliver(old(sessions), to, f)
      ensures OutboxesOnly(old(sessions), sessions)
    {
      ghost var ss0 := sessions;
      DeliverOutboxesOnly(ss0, to, f);
      var i := 0;
      while i < |to|
        invariant 0 <= i <= |to|
        invariant sessions == Deliver(ss0, to[..i], f)
      {
        assert to[..i + 1] == to[..i] + [to[i]];
        DeliverAppend(ss0, to[..i], to[i], f);
        sessions := SendTo(sessions, to[i], f);
        i := i + 1;
      }
      assert to[..i] == to;
    }

    /** `sendRoomList`: the rooms this socket may see. The list it is sent
        is also the list as it stands after the send. */
    method SendRoomList(c: Sid)
      requires c in sessions && Valid()
      modifies this`sessions
      ensures Valid()
      ensures sessions == SendTo(old(sessions), c, RoomListFrame(rooms, old(sessions), roomOrder, old(sessions)[c]))
      ensures RoomListFrame(rooms, sessions, roomOrder, sessions[c]) == RoomListFrame(rooms, old(sessions), roomOrder, old(sessions)[c])
    {
      ghost var ss0 := sessions;
      var s := sessions[c];
      var f := RoomListFrame(rooms, sessions, roomOrder, s);
      SessionsOkUpdate(rooms, sessions, c, s.Send(f));
      sessions := sessions[c := s.Send(f)];
      assert OutboxesOnly(ss0, sessions);
      RoomListFrameOutboxes(rooms, ss0, sessions, roomOrder, c);
    }

    /** `broadcastRoomList`: every member of every room gets its own view of the list. */
    method BroadcastRoomList()
      modifies this`sessions
      ensures sessions == DeliverEach(old(sessions), Listeners(rooms, roomOrder), ListFor(rooms, old(sessions), roomOrder))
      ensures OutboxesOnly(old(sessions), sessions)
    {
      ghost var ss0 := sessions;
      var i := 0;
      while i < |roomOrder|
        invariant 0 <= i <= |roomOrder|
        invariant sessions == DeliverEach(ss0, Listeners(rooms, roomOrder[..i]), ListFor(rooms, ss0, roomOrder))
      {
        var n := roomOrder[i];
        assert roomOrder[..i + 1][..i] == roomOrder[..i];
        if n in rooms {
          SendListTo(rooms[n].clients, ss0, Listeners(rooms, roomOrder[..i]));
          assert Listeners(rooms, roomOrder[..i + 1]) == Listeners(rooms, roomOrder[..i]) + rooms[n].clients;
        } else {
          assert Listeners(rooms, roomOrder[..i]) + [] == Listeners(rooms, roomOrder[..i]);
          assert Listeners(rooms, roomOrder[..i + 1]) == Listeners(rooms, roomOrder[..i]);
        }
        i := i + 1;
      }
      assert roomOrder[..i] == roomOrder;
      DeliverEachOutboxesOnly(ss0, Listeners(rooms, roomOrder), ListFor(rooms, ss0, roomOrder));
    }

    /** The inner loop of `broadcastRoomList`: one room's members, each sent the list as it stands. */
    method SendListTo(members: seq<Sid>, ghost ss0: map<Sid, Session>, ghost done: seq<Sid>)
      requires sessions == DeliverEach(ss0, done, ListFor(rooms, ss0, roomOrder))
      modifies this`sessions
      ensures sessions == DeliverEach(ss0, done + members, ListFor(rooms, ss0, roomOrder))
    {
      var j := 0;
      assert done + members[..0] == done;
      while j < |members|
        invariant 0 <= j <= |members|
        invariant sessions == DeliverEach(ss0, done + members[..j], ListFor(rooms, ss0, roomOrder))
      {
        var d := members[j];
        assert done + members[..j + 1] == (done + members[..j]) + [d];
        DeliverEachAppend(ss0, done + members[..j], d, ListFor(rooms, ss0, roomOrder));
        if d in sessions {
          DeliverEachOutboxesOnly(ss0, done + members[..j], ListFor(rooms, ss0, roomOrder));
          RoomListFrameOutboxes(rooms, ss0, sessions, roomOrder, d);
          sessions := SendTo(sessions, d, RoomListFrame(rooms, sessions, roomOrder, sessions[d]));
        }
        j := j + 1;
      }
      assert members[..j] == members;
    }

    // -------------------------------------------------------------------
    // Rate limiting (server/src/utils/security.js).

    /** `rateLimit`: prune the window of `ip_action`; refuse (with a violation) when it is full, else record `now`. */
    method RateLimit(c: Sid, action: string, lim: Limit, now: int) returns (ok: bool)
      requires c in sessions
      modifies this`sessions, this`rateLimits
      ensures var key := RateKey(old(sessions)[c].ip, action);
        var w := WindowOf(old(rateLimits), key);
        ok == Allowed(w, now, lim)
        && rateLimits == old(rateLimits)[key := WindowAfter(w, now, lim)]
        && sessions == if ok then old(sessions) else old(sessions)[c := Violation(old(sessions)[c])]
      ensures ClientsKept(old(sessions), sessions)
    {
      var key := RateKey(sessions[c].ip, action);
      var w := WindowOf(rateLimits, key);
      var pruned := Prune(w, now, lim.ms);
      if |pruned| >= lim.reqs {
        rateLimits := rateLimits[key := pruned];
        sessions := sessions[c := Violation(sessions[c])];
        return false;
      }
      rateLimits := rateLimits[key := pruned + [now]];
      return true;
    }

    // -------------------------------------------------------------------
    // Connections (server/src/services/clientManager.js).

    /**
     * `handleConnection` for a new socket from `addr`. `stored` is what the
     * player store holds for the address's hash; `roll` and `color` are the
     * random name suffix and colour a new player gets.
     */
    method Connect(addr: string, origin: Option<string>, stored: Option<StoredClient>, roll: Roll, color: string, now: int)
      returns (c: Sid)
      requires Valid()
      modifies this`sessions, this`nextSid, this`rateLimits, this`concurrent, this`store
      ensures Valid()
      ensures c == old(nextSid) && c !in old(sessions)
      ensures c in sessions && (forall d :: d in sessions <==> d in old(sessions) || d == c)
      ensures forall d :: d in old(sessions) ==> sessions[d] == old(sessions)[d]
      ensures !OriginOk(config.allowedOrigins, origin) ==>
        sessions[c] == SafeClose(Fresh(addr, origin)) && concurrent == old(concurrent) && rateLimits == old(rateLimits)
      ensures var allowed := Allowed(WindowOf(old(rateLimits), RateKey(Some(addr), "connection")), now, CONNECTION_LIMIT);
        (OriginOk(config.allowedOrigins, origin) && allowed ==> concurrent == Admit(old(concurrent), addr))
        && (!allowed ==> concurrent == old(concurrent))
        && (sessions[c].client.Some? <==> OriginOk(config.allowedOrigins, origin) && allowed && !OverLimit(old(concurrent), addr))
      ensures sessions[c].client.Some? ==>
        sessions[c].client.value == NewPlayer(config, addr, stored, roll, color)
        && sessions[c].state == Open && sessions[c].roomName.None?
        && sessions[c].outbox == [RoomListFrame(rooms, sessions, roomOrder, sessions[c])]
        && store == old(store) + (if stored.None? then [SaveClient(PlayerUuid(config, addr), sessions[c].client.value.username, color)] else [])
      ensures sessions[c].client.None? ==> store == old(store)
    {
      c := AddSocket(addr, origin);
      Screen(c, addr, origin, stored, roll, color, now);
    }

    /** `handleConnection` after the socket exists: the origin check, the rate limit, then admission. */
    method Screen(c: Sid, addr: string, origin: Option<string>, stored: Option<StoredClient>, roll: Roll, color: string, now: int)
      requires c in sessions && sessions[c] == Fresh(addr, origin) && Valid()
      modifies this`sessions, this`rateLimits, this`concurrent, this`store
      ensures Valid()
      ensures c in sessions && sessions.Keys == old(sessions).Keys
      ensures forall d :: d in old(sessions) && d != c ==> sessions[d] == old(sessions)[d]
      ensures !OriginOk(config.allowedOrigins, origin) ==>
        sessions[c] == SafeClose(Fresh(addr, origin)) && concurrent == old(concurrent) && rateLimits == old(rateLimits)
      ensures var allowed := Allowed(WindowOf(old(rateLimits), RateKey(Some(addr), "connection")), now, CONNECTION_LIMIT);
        (OriginOk(config.allowedOrigins, origin) && allowed ==> concurrent == Admit(old(concurrent), addr))
        && (!allowed ==> concurrent == old(concurrent))
        && (sessions[c].client.Some? <==> OriginOk(config.allowedOrigins, origin) && allowed && !OverLimit(old(concurrent), addr))
      ensures sessions[c].client.Some? ==>
        sessions[c].client.value == NewPlayer(config, addr, stored, roll, color)
        && sessions[c].state == Open && sessions[c].roomName.None?
        && sessions[c].outbox == [RoomListFrame(rooms, sessions, roomOrder, sessions[c])]
        && store == old(store) + (if stored.None? then [SaveClient(PlayerUuid(config, addr), sessions[c].client.value.username, color)] else [])
      ensures sessions[c].client.None? ==> store == old(store)
    {
      if !OriginOk(config.allowedOrigins, origin) {
        CloseSocket(c);
        return;
      }
      SetIp(c, addr);
      var ok := ConnectionLimit(c, now);
      if !ok {
        CloseSocket(c);
        return;
      }
      Admission(c, addr, stored, roll, color);
    }

    /** A new socket, with the next id and no player yet. */
    method AddSocket(addr: string, origin: Option<string>) returns (c: Sid)
      requires Valid()
      modifies this`sessions, this`nextSid
      ensures Valid()
      ensures c == old(nextSid) && c !in old(sessions) && nextSid == c + 1
      ensures sessions == old(sessions)[c := Fresh(addr, origin)] && sessions.Keys == old(sessions).Keys + {c}
    {
      c := nextSid;
      nextSid := nextSid + 1;
      SessionsOkUpdate(rooms, sessions, c, Fresh(addr, origin));
      sessions := sessions[c := Fresh(addr, origin)];
    }

    /** Records the socket's address (the address the rate limits are keyed on). */
    method SetIp(c: Sid, addr: string)
      requires c in sessions && Valid()
      modifies this`sessions
      ensures Valid()
      ensures sessions == old(sessions)[c := old(sessions)[c].(ip := Some(addr))] && sessions.Keys == old(sessions).Keys
    {
      SessionsOkUpdate(rooms, sessions, c, sessions[c].(ip := Some(addr)));
      sessions := sessions[c := sessions[c].(ip := Some(addr))];
    }

    /** The connection rate limit of `handleConnection`, for a socket that has no player yet. */
    method ConnectionLimit(c: Sid, now: int) returns (ok: bool)
      requires c in sessions && sessions[c].client.None? && Valid()
      modifies this`sessions, this`rateLimits
      ensures Valid() && sessions.Keys == old(sessions).Keys
      ensures sessions[c].client.None?
      ensures forall d :: d in old(sessions) && d != c ==> sessions[d] == old(sessions)[d]
      ensures var key := RateKey(old(sessions)[c].ip, "connection");
        var w := WindowOf(old(rateLimits), key);
        ok == Allowed(w, now, CONNECTION_LIMIT)
        && rateLimits == old(rateLimits)[key := WindowAfter(w, now, CONNECTION_LIMIT)]
      ensures ok ==> sessions == old(sessions)
    {
      ghost var before := sessions;
      ok := RateLimit(c, "connection", CONNECTION_LIMIT, now);
      SessionsOkKept(rooms, before, sessions);
    }

    /** `ws.close()` on a socket, which keeps its player if it had one. */
    method CloseSocket(c: Sid)
      requires c in sessions && Valid()
      modifies this`sessions
      ensures Valid()
      ensures sessions == old(sessions)[c := SafeClose(old(sessions)[c])] && sessions.Keys == old(sessions).Keys
    {
      SessionsOkUpdate(rooms, sessions, c, SafeClose(sessions[c]));
      sessions := sessions[c := SafeClose(sessions[c])];
    }

    /** The rest of `handleConnection` once the rate limit passed: the
        connection count, then the player and the room list, or a close when
        the address has too many connections. */
    method Admission(c: Sid, addr: string, stored: Option<StoredClient>, roll: Roll, color: string)
      requires c in sessions && sessions[c].client.None?
      requires Valid()
      modifies this`sessions, this`concurrent, this`store
      ensures Valid()
      ensures concurrent == Admit(old(concurrent), addr)
      ensures sessions.Keys == old(sessions).Keys
      ensures forall d :: d in old(sessions) && d != c ==> sessions[d] == old(sessions)[d]
      ensures OverLimit(old(concurrent), addr) ==> sessions[c] == SafeClose(old(sessions)[c]) && store == old(store)
      ensures !OverLimit(old(concurrent), addr) ==>
        var s1 := old(sessions)[c].(client := Some(NewPlayer(config, addr, stored, roll, color)));
        sessions[c] == s1.Send(RoomListFrame(rooms, sessions, roomOrder, sessions[c]))
        && store == old(store) + (if stored.None? then [SaveClient(PlayerUuid(config, addr), s1.client.value.username, color)] else [])
    {
      AdmitCount(addr);
      if concurrent[addr] > MAX_CONCURRENT {
        CloseSocket(c);
        return;
      }
      var client := NewPlayer(config, addr, stored, roll, color);
      if stored.None? {
        store := store + [SaveClient(PlayerUuid(config, addr), client.username, color)];
      }
      GivePlayer(c, client);
      SendRoomList(c);
    }

    /** The connection counted against its address. */
    method AdmitCount(addr: string)
      requires Valid()
      modifies this`concurrent
      ensures Valid() && concurrent == Admit(old(concurrent), addr)
    {
      AdmitPositive(concurrent, addr);
      concurrent := Admit(concurrent, addr);
    }

    /** `ws.client = ...`. */
    method GivePlayer(c: Sid, client: Client)
      requires c in sessions && Valid()
      modifies this`sessions
      ensures Valid()
      ensures sessions == old(sessions)[c := old(sessions)[c].(client := Some(client))]
    {
      SessionsOkUpdate(rooms, sessions, c, sessions[c].(client := Some(client)));
      sessions := sessions[c := sessions[c].(client := Some(client))];
    }

    // -------------------------------------------------------------------
    // Notes (server/src/services/pianoManager.js).

    /** The sessions after `handlePressNote`: a socket that may not play
        changes nothing; otherwise its quota is charged and a checked press
        is relayed to the rest of its room. */
    ghost predicate NotePressed(pre: Snapshot, post: Snapshot, c: Sid, p: seq<Byte>, uptime: int, now: int)
    {
      && c in pre.sessions
      && (!MayPlay(post.rooms, pre.sessions[c]) ==> post.sessions == pre.sessions)
      && (MayPlay(post.rooms, pre.sessions[c]) ==>
            var o := Piano.Press(pre.sessions[c], p, uptime, now);
            var ss := pre.sessions[c := o.after];
            post.sessions == if o.relay.Some? then Deliver(ss, Recipients(post.rooms, ss, c, false), o.relay.value) else ss)
    }

    /** `handlePressNote`: relay a checked press to the room, charge the quota. */
    method PressNote(c: Sid, p: seq<Byte>, uptime: int, now: int)
      requires c in sessions && Valid()
      modifies this`sessions
      ensures Valid()
      ensures NotePressed(old(Snap()), Snap(), c, p, uptime, now)
    {
      var s := sessions[c];
      if !MayPlay(rooms, s) {
        return;
      }
      var o := Piano.Press(s, p, uptime, now);
      SessionsOkUpdate(rooms, sessions, c, o.after);
      sessions := sessions[c := o.after];
      if o.relay.Some? {
        ghost var ss := sessions;
        BroadcastToRoom(c, o.relay.value, false);
        OutboxesKeepClients(ss, sessions);
        SessionsOkKept(rooms, ss, sessions);
      }
    }

    /** The sessions after `handleReleaseNote`: a checked release from a
        socket that may play goes to the rest of its room; nothing else changes. */
    ghost predicate NoteReleased(pre: Snapshot, post: Snapshot, c: Sid, p: seq<Byte>, uptime: int)
    {
      && c in pre.sessions
      && var s := pre.sessions[c];
         var r := Piano.Release(s.SeatByte(), p, uptime);
         post.sessions == if MayPlay(post.rooms, s) && r.Some? then Deliver(pre.sessions, Recipients(post.rooms, pre.sessions, c, false), r.value)
                     else pre.sessions
    }

    /** `handleReleaseNote`: relay a checked release to the room; no quota. */
    method ReleaseNote(c: Sid, p: seq<Byte>, uptime: int)
      requires c in sessions && Valid()
      modifies this`sessions
      ensures Valid()
      ensures NoteReleased(old(Snap()), Snap(), c, p, uptime)
    {
      var s := sessions[c];
      if !MayPlay(rooms, s) {
        return;
      }
      var r := Piano.Release(s.SeatByte(), p, uptime);
      if r.Some? {
        ghost var ss := sessions;
        BroadcastToRoom(c, r.value, false);
        OutboxesKeepClients(ss, sessions);
        SessionsOkKept(rooms, ss, sessions);
      }
    }

    /** The sessions after `handleBatchNotes`: the quota charged while
        scanning, and the whole batch behind the seat to the rest of the room
        when every note passed. */
    ghost predicate BatchRelayed(pre: Snapshot, post: Snapshot, c: Sid, p: seq<Byte>, uptime: int, now: int)
    {
      && c in pre.sessions
      && (!MayPlay(post.rooms, pre.sessions[c]) ==> post.sessions == pre.sessions)
      && (MayPlay(post.rooms, pre.sessions[c]) ==>
            var s := pre.sessions[c];
            var r := Piano.BatchScan(s, p, 1, uptime, now);
            var ss := pre.sessions[c := r.after];
            post.sessions == if r.ok then Deliver(ss, Recipients(post.rooms, ss, c, false), Binary([BATCH_NOTES, s.SeatByte()] + p)) else ss)
    }

    /** `handleBatchNotes`: the whole payload is relayed after the seat, or
        nothing is; the quota charged while scanning stays charged. */
    method BatchNotes(c: Sid, p: seq<Byte>, uptime: int, now: int)
      requires c in sessions && Valid()
      modifies this`sessions
      ensures Valid()
      ensures BatchRelayed(old(Snap()), Snap(), c, p, uptime, now)
    {
      var s := sessions[c];
      if !MayPlay(rooms, s) {
        return;
      }
      var ok, after := Piano.ScanBatch(s, p, uptime, now);
      SessionsOkUpdate(rooms, sessions, c, after);
      sessions := sessions[c := after];
      if ok {
        ghost var ss := sessions;
        BroadcastToRoom(c, Binary([BATCH_NOTES, s.SeatByte()] + p), false);
        OutboxesKeepClients(ss, sessions);
        SessionsOkKept(rooms, ss, sessions);
      }
    }

    // -------------------------------------------------------------------
    // Cursors, names, settings and pings.

    /** The rooms after the SET_CURSOR_POS branch: the sample is queued on
        the cursor of a player in a room who is not vanished. */
    ghost predicate CursorQueued(pre: Snapshot, post: Snapshot, c: Sid, p: seq<Byte>, now: int)
    {
      && c in post.sessions
      && var s := post.sessions[c];
         post.rooms == if InRoom(pre.rooms, s) && !IsVanished(s) then
           pre.rooms[s.RoomKey() := pre.rooms[s.RoomKey()].(cursors := Cursors.UpdateCursor(pre.rooms[s.RoomKey()].cursors, s.client.value.uuid, s.clientId, p, now))]
         else pre.rooms
    }

    /** The SET_CURSOR_POS branch: a player in a room who is not vanished
        queues a sample on its cursor (`updateCursorPosition`). */
    method SetCursor(c: Sid, p: seq<Byte>, now: int)
      requires c in sessions && Valid()
      modifies this`rooms
      ensures Valid()
      ensures CursorQueued(old(Snap()), Snap(), c, p, now)
    {
      var s := sessions[c];
      if !InRoom(rooms, s) || IsVanished(s) {
        return;
      }
      var r := rooms[s.RoomKey()];
      rooms := rooms[s.RoomKey() := r.(cursors := Cursors.UpdateCursor(r.cursors, s.client.value.uuid, s.clientId, p, now))];
    }

    /** The sessions after the PING branch: the pong goes to a player in a room. */
    ghost predicate Ponged(pre: Snapshot, post: Snapshot, c: Sid, uptime: int)
    {
      && c in pre.sessions
      && post.sessions == if InRoom(post.rooms, pre.sessions[c]) then SendTo(pre.sessions, c, PongFrame(uptime)) else pre.sessions
    }

    /** The PING branch: a player in a room is sent the uptime. */
    method Ping(c: Sid, uptime: int)
      requires c in sessions && Valid()
      modifies this`sessions
      ensures Valid()
      ensures Ponged(old(Snap()), Snap(), c, uptime)
    {
      if !InRoom(rooms, sessions[c]) {
        return;
      }
      SessionsOkUpdate(rooms, sessions, c, sessions[c].Send(PongFrame(uptime)));
      sessions := SendTo(sessions, c, PongFrame(uptime));
    }

    /** The sessions and the store after `handleClientNameUpdate`: nothing
        changes unless the player is in a room and the name is acceptable. */
    ghost predicate NameTaken(pre: Snapshot, post: Snapshot, c: Sid, name: string)
    {
      && c in pre.sessions
      && var s := pre.sessions[c];
         && (!(InRoom(post.rooms, s) && NameOk(name)) ==> post.sessions == pre.sessions && post.store == pre.store)
         && (InRoom(post.rooms, s) && NameOk(name) ==>
               var f := NameFrame(s, name);
               var ss := Deliver(pre.sessions, Recipients(post.rooms, pre.sessions, c, false), f);
               post.sessions == ss[c := s.(client := Some(s.client.value.(username := name))).Send(f)]
               && post.store == pre.store + [UpdateName(s.client.value.uuid, name)])
    }

    /** The SET_NAME branch and `handleClientNameUpdate`: an acceptable name
        is stored, announced to the room (judged by the old name), taken,
        and echoed to the sender. */
    method SetName(c: Sid, name: string)
      requires c in sessions && Valid()
      modifies this`sessions, this`store
      ensures Valid()
      ensures NameTaken(old(Snap()), Snap(), c, name)
    {
      var s := sessions[c];
      if !InRoom(rooms, s) || !NameOk(name) {
        return;
      }
      var f := NameFrame(s, name);
      store := store + [UpdateName(s.client.value.uuid, name)];
      ghost var ss0 := sessions;
      BroadcastToRoom(c, f, false);
      OutboxesKeepClients(ss0, sessions);
      SessionsOkKept(rooms, ss0, sessions);
      var s' := s.(client := Some(s.client.value.(username := name))).Send(f);
      SessionsOkUpdate(rooms, sessions, c, s');
      sessions := sessions[c := s'];
    }

    /** The sessions and the rooms after the UPDATE_ROOM_SETTINGS branch:
        nothing changes unless the sender owns its room. */
    ghost predicate SettingsSet(pre: Snapshot, post: Snapshot, c: Sid, p: seq<Byte>)
    {
      && c in pre.sessions
      && var s := pre.sessions[c];
         && (!(InRoom(pre.rooms, s) && OwnerUuid(pre.sessions, pre.rooms[s.RoomKey()]) == s.Uuid()) ==>
               post.sessions == pre.sessions && post.rooms == pre.rooms)
         && (InRoom(pre.rooms, s) && OwnerUuid(pre.sessions, pre.rooms[s.RoomKey()]) == s.Uuid() ==>
               var f := Binary([ROOM_SETTINGS] + p);
               var ss := SendTo(Deliver(pre.sessions, Recipients(post.rooms, pre.sessions, c, true), f), c, f);
               post.rooms == pre.rooms[s.RoomKey() := SettingsApplied(pre.rooms[s.RoomKey()], p)]
               && post.sessions == DeliverEach(ss, Listeners(post.rooms, post.roomOrder), ListFor(post.rooms, ss, post.roomOrder)))
    }

    /** The UPDATE_ROOM_SETTINGS branch and `setRoomSettings`: only the
        owner (by uuid) changes the settings; the payload is echoed to the
        room regardless of vanish and to the sender, then everyone gets the
        room list. */
    method SetSettings(c: Sid, p: seq<Byte>)
      requires c in sessions && Valid()
      modifies this`sessions, this`rooms
      ensures Valid()
      ensures SettingsSet(old(Snap()), Snap(), c, p)
    {
      var s := sessions[c];
      if !InRoom(rooms, s) || OwnerUuid(sessions, rooms[s.RoomKey()]) != s.Uuid() {
        return;
      }
      ChangeSettings(s.RoomKey(), p);
      var f := Binary([ROOM_SETTINGS] + p);
      EchoSettings(c, f);
      RefreshLists();
    }

    /** `setRoomSettings`' loop, applied to the stored room. */
    method ChangeSettings(n: string, p: seq<Byte>)
      requires n in rooms && Valid()
      modifies this`rooms
      ensures Valid()
      ensures rooms == old(rooms)[n := SettingsApplied(old(rooms)[n], p)]
    {
      var r' := ApplySettings(rooms[n], p);
      LastWriteWins(rooms[n], p);
      rooms := rooms[n := r'];
    }

    /** The settings frame to the room regardless of vanish, then to the sender. */
    method EchoSettings(c: Sid, f: Frame)
      requires c in sessions && Valid()
      modifies this`sessions
      ensures Valid()
      ensures sessions == SendTo(Deliver(old(sessions), Recipients(rooms, old(sessions), c, true), f), c, f)
    {
      ghost var ss0 := sessions;
      BroadcastToRoom(c, f, true);
      OutboxesKeepClients(ss0, sessions);
      SessionsOkKept(rooms, ss0, sessions);
      SessionsOkUpdate(rooms, sessions, c, sessions[c].Send(f));
      sessions := SendTo(sessions, c, f);
    }

    // -------------------------------------------------------------------
    // Leaving a room (server/src/services/roomManager.js `leaveRoom`).

    /** `broadcastToRoom` where the invariant is at stake. */
    method Announce(sender: Sid, f: Frame, bypass: bool)
      requires sender in sessions && Valid()
      modifies this`sessions
      ensures Valid() && OutboxesOnly(old(sessions), sessions)
      ensures sessions == Deliver(old(sessions), Recipients(rooms, old(sessions), sender, bypass), f)
      ensures sessions[sender] == old(sessions)[sender]
    {
      ghost var ss0 := sessions;
      BroadcastToRoom(sender, f, bypass);
      OutboxesKeepClients(ss0, sessions);
      SessionsOkKept(rooms, ss0, sessions);
    }

    /** `broadcastRoomList` where the invariant is at stake. */
    method RefreshLists()
      requires Valid()
      modifies this`sessions
      ensures Valid() && OutboxesOnly(old(sessions), sessions)
      ensures sessions == DeliverEach(old(sessions), Listeners(rooms, roomOrder), ListFor(rooms, old(sessions), roomOrder))
    {
      ghost var ss0 := sessions;
      BroadcastRoomList();
      OutboxesKeepClients(ss0, sessions);
      SessionsOkKept(rooms, ss0, sessions);
    }

    /**
     * `leaveRoom`: a member is announced as gone to the others, arms the
     * 5-second handover when it owned the room, and loses its seat and its
     * cursor. A room left empty stops its cursor flush, and is deleted
     * unless persistent. Everyone then gets the room list. The socket's
     * `roomName` is left as it was.
     */
    method LeaveRoom(c: Sid)
      requires c in sessions && Valid()
      modifies this`sessions, this`rooms, this`roomOrder, this`cursorIntervals, this`timers, this`nextTimer
      ensures Valid() && OutboxesOnly(old(sessions), sessions)
      ensures var n := old(sessions)[c].RoomKey();
        !old(sessions)[c].HasRoom() || n !in old(rooms) ==>
          sessions == old(sessions) && rooms == old(rooms) && roomOrder == old(roomOrder)
          && cursorIntervals == old(cursorIntervals) && timers == old(timers) && nextTimer == old(nextTimer)
      ensures var n := old(sessions)[c].RoomKey();
        old(sessions)[c].HasRoom() && n in old(rooms) && c !in old(rooms)[n].clients ==>
          timers == old(timers) && nextTimer == old(nextTimer)
          && rooms == Vacated(old(rooms), n) && roomOrder == VacatedOrder(old(rooms), old(roomOrder), n)
          && cursorIntervals == Stopped(old(rooms), old(cursorIntervals), n)
          && sessions == DeliverEach(old(sessions), Listeners(rooms, roomOrder), ListFor(rooms, old(sessions), roomOrder))
      ensures var s := old(sessions)[c];
        var n := s.RoomKey();
        s.HasRoom() && n in old(rooms) && c in old(rooms)[n].clients ==>
          var uuid := s.client.value.uuid;
          var owner := OwnerUuid(old(sessions), old(rooms)[n]) == Some(uuid);
          var mid := old(rooms)[n := LeftRoom(old(rooms)[n], c, uuid, owner, old(nextTimer))];
          var ss := Deliver(old(sessions), Recipients(old(rooms), old(sessions), c, false), WithText([PLAYER_LEFT], uuid));
          (owner ==> timers == Disarmed(old(timers), old(rooms)[n].transferTimer)[old(nextTimer) := Pending(n, uuid)]
                     && nextTimer == old(nextTimer) + 1)
          && (!owner ==> timers == old(timers) && nextTimer == old(nextTimer))
          && rooms == Vacated(mid, n) && roomOrder == VacatedOrder(mid, old(roomOrder), n)
          && cursorIntervals == Stopped(mid, old(cursorIntervals), n)
          && sessions == DeliverEach(ss, Listeners(rooms, roomOrder), ListFor(rooms, ss, roomOrder))
    {
      var n := sessions[c].RoomKey();
      if !sessions[c].HasRoom() || n !in rooms {
        return;
      }
      if c in rooms[n].clients {
        LeaveMember(c, n);
      } else {
        Vacate(n);
      }
    }

    /** `leaveRoom` for a member of room `n`. */
    method LeaveMember(c: Sid, n: string)
      requires c in sessions && n in rooms && c in rooms[n].clients && Valid()
      modifies this`sessions, this`rooms, this`roomOrder, this`cursorIntervals, this`timers, this`nextTimer
      ensures Valid() && OutboxesOnly(old(sessions), sessions)
      ensures old(sessions)[c].client.Some?
      ensures var uuid := old(sessions)[c].client.value.uuid;
        var owner := OwnerUuid(old(sessions), old(rooms)[n]) == Some(uuid);
        var mid := old(rooms)[n := LeftRoom(old(rooms)[n], c, uuid, owner, old(nextTimer))];
        var ss := Deliver(old(sessions), Recipients(old(rooms), old(sessions), c, false), WithText([PLAYER_LEFT], uuid));
        (owner ==> timers == Disarmed(old(timers), old(rooms)[n].transferTimer)[old(nextTimer) := Pending(n, uuid)]
                   && nextTimer == old(nextTimer) + 1)
        && (!owner ==> timers == old(timers) && nextTimer == old(nextTimer))
        && rooms == Vacated(mid, n) && roomOrder == VacatedOrder(mid, old(roomOrder), n)
        && cursorIntervals == Stopped(mid, old(cursorIntervals), n)
        && sessions == DeliverEach(ss, Listeners(rooms, roomOrder), ListFor(rooms, ss, roomOrder))
    {
      LeaveSeat(c, n);
      ghost var ss := sessions;
      Vacate(n);
      OutboxesOnlyTrans(old(sessions), ss, sessions);
    }

    /** The end of `leaveRoom`: the room is tidied, then everyone gets the room list. */
    method Vacate(n: string)
      requires n in rooms && Valid()
      modifies this`sessions, this`rooms, this`roomOrder, this`cursorIntervals
      ensures Valid() && OutboxesOnly(old(sessions), sessions)
      ensures rooms == Vacated(old(rooms), n) && roomOrder == VacatedOrder(old(rooms), old(roomOrder), n)
      ensures cursorIntervals == Stopped(old(rooms), old(cursorIntervals), n)
      ensures sessions == DeliverEach(old(sessions), Listeners(rooms, roomOrder), ListFor(rooms, old(sessions), roomOrder))
    {
      Tidy(n);
      RefreshLists();
    }

    /** The member part of `leaveRoom`: the others are told, then the member departs. */
    method LeaveSeat(c: Sid, n: string)
      requires c in sessions && n in rooms && c in rooms[n].clients && Valid()
      modifies this`sessions, this`rooms, this`timers, this`nextTimer
      ensures Valid() && OutboxesOnly(old(sessions), sessions)
      ensures old(sessions)[c].client.Some?
      ensures var uuid := old(sessions)[c].client.value.uuid;
        var owner := OwnerUuid(old(sessions), old(rooms)[n]) == Some(uuid);
        (owner ==> timers == Disarmed(old(timers), old(rooms)[n].transferTimer)[old(nextTimer) := Pending(n, uuid)]
                   && nextTimer == old(nextTimer) + 1)
        && (!owner ==> timers == old(timers) && nextTimer == old(nextTimer))
        && rooms == old(rooms)[n := LeftRoom(old(rooms)[n], c, uuid, owner, old(nextTimer))]
        && sessions == Deliver(old(sessions), Recipients(old(rooms), old(sessions), c, false), WithText([PLAYER_LEFT], uuid))
    {
      var uuid := sessions[c].client.value.uuid;
      var owner := OwnerUuid(sessions, rooms[n]) == Some(uuid);
      Announce(c, WithText([PLAYER_LEFT], uuid), false);
      Depart(c, n, uuid, owner);
    }

    /** The member part of `leaveRoom` after the announcement: the handover timer, the seat and the cursor. */
    method Depart(c: Sid, n: string, uuid: string, owner: bool)
      requires n in rooms && Valid()
      modifies this`rooms, this`timers, this`nextTimer
      ensures Valid()
      ensures owner ==> timers == Disarmed(old(timers), old(rooms)[n].transferTimer)[old(nextTimer) := Pending(n, uuid)]
                        && nextTimer == old(nextTimer) + 1
      ensures !owner ==> timers == old(timers) && nextTimer == old(nextTimer)
      ensures rooms == old(rooms)[n := LeftRoom(old(rooms)[n], c, uuid, owner, old(nextTimer))]
    {
      if owner {
        Rearm(n, uuid);
      }
      Unseat(n, c, uuid);
    }

    /** The owner left: a pending handover is cleared and a new one, for this player, is armed. */
    method Rearm(n: string, uuid: string)
      requires n in rooms && Valid()
      modifies this`rooms, this`timers, this`nextTimer
      ensures Valid()
      ensures timers == Disarmed(old(timers), old(rooms)[n].transferTimer)[old(nextTimer) := Pending(n, uuid)]
      ensures nextTimer == old(nextTimer) + 1
      ensures rooms == old(rooms)[n := old(rooms)[n].(transferTimer := Some(old(nextTimer)))]
    {
      var r := rooms[n];
      timers := Disarmed(timers, r.transferTimer)[nextTimer := Pending(n, uuid)];
      assert RoomOk(r.(transferTimer := Some(nextTimer)), sessions);
      SessionsOkRoom(rooms, sessions, n, r.(transferTimer := Some(nextTimer)));
      rooms := rooms[n := r.(transferTimer := Some(nextTimer))];
      nextTimer := nextTimer + 1;
    }

    /** The member loses its seat and its cursor. */
    method Unseat(n: string, c: Sid, uuid: string)
      requires n in rooms && Valid()
      modifies this`rooms
      ensures Valid()
      ensures rooms == old(rooms)[n := Departed(old(rooms)[n], c, uuid)]
    {
      var r := Departed(rooms[n], c, uuid);
      assert RoomOk(r, sessions);
      SessionsOkRoom(rooms, sessions, n, r);
      rooms := rooms[n := r];
    }

    /** The end of `leaveRoom`: an empty room stops its cursor flush and, unless persistent, is deleted. */
    method Tidy(n: string)
      requires n in rooms && Valid()
      modifies this`rooms, this`roomOrder, this`cursorIntervals
      ensures Valid()
      ensures rooms == Vacated(old(rooms), n) && roomOrder == VacatedOrder(old(rooms), old(roomOrder), n)
      ensures cursorIntervals == Stopped(old(rooms), old(cursorIntervals), n)
    {
      cursorIntervals := Stopped(rooms, cursorIntervals, n);
      if Abandoned(rooms[n]) {
        DeleteRoom(n);
      }
    }

    /** `delete rooms[n]`, which also drops the name from the key order. */
    method DeleteRoom(n: string)
      requires n in rooms && Valid()
      modifies this`rooms, this`roomOrder
      ensures Valid()
      ensures rooms == old(rooms) - {n} && roomOrder == Unlisted(old(roomOrder), n)
    {
      OrderUnlisted(roomOrder, rooms, n);
      rooms := rooms - {n};
      roomOrder := Unlisted(roomOrder, n);
    }

    // -------------------------------------------------------------------
    // Sending where the invariant is at stake.

    method SendOne(c: Sid, f: Frame)
      requires c in sessions && Valid()
      modifies this`sessions
      ensures Valid() && OutboxesOnly(old(sessions), sessions)
      ensures sessions == SendTo(old(sessions), c, f)
    {
      SessionsOkUpdate(rooms, sessions, c, sessions[c].Send(f));
      sessions := SendTo(sessions, c, f);
    }

    /** `clients.forEach(c => c.send(f))`. */
    method Tell(to: seq<Sid>, f: Frame)
      requires Valid()
      modifies this`sessions
      ensures Valid() && OutboxesOnly(old(sessions), sessions)
      ensures sessions == Deliver(old(sessions), to, f)
    {
      ghost var ss0 := sessions;
      Multicast(to, f);
      OutboxesKeepClients(ss0, sessions);
      SessionsOkKept(rooms, ss0, sessions);
    }

    // -------------------------------------------------------------------
    // Joining a room (server/src/services/roomManager.js `joinRoom`).

    /**
     * `joinRoom` with a validated name. A `/hidden:` prefix is cut off and
     * makes the room hidden only when the join creates it. The joiner takes
     * the least seat id no member holds (its own stale id from an earlier
     * room included), is announced to the others, gets its welcome, and
     * everyone gets the room list. The cursor flush runs for the room from
     * now on, and a pending handover is cancelled when the joiner is the
     * room's owner.
     */
    method JoinRoom(c: Sid, name: string, now: int) returns (n: string, seat: nat)
      requires c in sessions && sessions[c].client.Some? && IsClean(name) && Valid()
      modifies this`sessions, this`rooms, this`roomOrder, this`cursorIntervals, this`timers, this`notices
      ensures Valid()
      ensures notices == old(notices) + (if IsVanished(old(sessions)[c]) then [c] else [])
      ensures n == StripHidden(name).0
      ensures roomOrder == (if n in old(rooms) then old(roomOrder) else old(roomOrder) + [n])
      ensures cursorIntervals == Started(old(cursorIntervals), n)
      ensures var base := JoinBase(old(rooms), n, c, now, StripHidden(name).1);
        LeastFree(SeatIds(old(sessions), base.clients + [c]), seat)
      ensures var base := JoinBase(old(rooms), n, c, now, StripHidden(name).1);
        var ss1 := old(sessions)[c := old(sessions)[c].(roomName := Some(n), clientId := Some(seat))];
        var rooms1 := old(rooms)[n := base.(clients := base.clients + [c])];
        var cancel := OwnerBack(ss1, rooms1, c, n);
        sessions == Greeted(ss1, rooms1, roomOrder, c, n)
        && rooms == (if cancel then rooms1[n := rooms1[n].(transferTimer := None)] else rooms1)
        && timers == (if cancel then old(timers) - {rooms1[n].transferTimer.value} else old(timers))
    {
      n, seat := Arrive(c, name, now);
      Settle(c, n);
    }

    /** The first half of `joinRoom`: the room (created when missing), the membership and the seat. */
    method Arrive(c: Sid, name: string, now: int) returns (n: string, seat: nat)
      requires c in sessions && sessions[c].client.Some? && IsClean(name) && Valid()
      modifies this`sessions, this`rooms, this`roomOrder
      ensures Valid()
      ensures n == StripHidden(name).0
      ensures roomOrder == (if n in old(rooms) then old(roomOrder) else old(roomOrder) + [n])
      ensures var base := JoinBase(old(rooms), n, c, now, StripHidden(name).1);
        LeastFree(SeatIds(old(sessions), base.clients + [c]), seat)
        && rooms == old(rooms)[n := base.(clients := base.clients + [c])]
        && sessions == old(sessions)[c := old(sessions)[c].(roomName := Some(n), clientId := Some(seat))]
    {
      n := OpenRoom(c, name, now);
      ghost var base := JoinBase(old(rooms), n, c, now, StripHidden(name).1);
      Seat(n, c);
      assert rooms == old(rooms)[n := base.(clients := base.clients + [c])];
      seat := TakeSeat(c, n);
    }

    /** The rest of `joinRoom`, once the joiner is seated in room `n`. A
        vanished joiner's notice is put on a 500ms timer. */
    method Settle(c: Sid, n: string)
      requires c in sessions && n in rooms && sessions[c].client.Some? && Valid()
      modifies this`sessions, this`rooms, this`cursorIntervals, this`timers, this`notices
      ensures Valid()
      ensures notices == old(notices) + (if IsVanished(old(sessions)[c]) then [c] else [])
      ensures cursorIntervals == Started(old(cursorIntervals), n)
      ensures var cancel := OwnerBack(old(sessions), old(rooms), c, n);
        sessions == Greeted(old(sessions), old(rooms), roomOrder, c, n)
        && rooms == (if cancel then old(rooms)[n := old(rooms)[n].(transferTimer := None)] else old(rooms))
        && timers == (if cancel then old(timers) - {old(rooms)[n].transferTimer.value} else old(timers))
    {
      var view := sessions;
      var s := sessions[c];
      var owner := OwnerUuid(sessions, rooms[n]);
      Introduce(c, n, view, owner);
      Arm(c, n, IsVanished(s));
      CancelHandover(n, OwnerBack(view, rooms, c, n));
    }

    /** The timers `joinRoom` starts: the vanish notice of a vanished joiner,
        and the room's cursor flush unless its name is inherited. */
    method Arm(c: Sid, n: string, vanished: bool)
      requires Valid()
      modifies this`notices, this`cursorIntervals
      ensures Valid()
      ensures notices == old(notices) + (if vanished then [c] else [])
      ensures cursorIntervals == Started(old(cursorIntervals), n)
    {
      if vanished {
        notices := notices + [c];
      }
      if n !in INHERITED_KEYS {
        cursorIntervals := cursorIntervals + {n};
      }
    }

    /** The middle of `joinRoom`: PLAYER_JOINED to the others, the welcome to the joiner, and the room list to everyone. */
    method Introduce(c: Sid, n: string, view: map<Sid, Session>, owner: Option<string>)
      requires c in sessions && n in rooms && view == sessions && sessions[c].client.Some? && Valid()
      modifies this`sessions
      ensures Valid()
      ensures var ss2 := Deliver(view, Recipients(rooms, view, c, false), PlayerJoinedFrame(view[c], owner));
        var ss3 := SendAll(ss2, c, Welcome(view[c], rooms[n], view, owner));
        sessions == DeliverEach(ss3, Listeners(rooms, roomOrder), ListFor(rooms, ss3, roomOrder))
    {
      Announce(c, PlayerJoinedFrame(view[c], owner), false);
      ghost var ss := sessions;
      Greet(c, n, view, owner);
      SendAllKeeps(rooms, ss, c, Welcome(view[c], rooms[n], view, owner));
      RefreshLists();
    }

    /** The start of `joinRoom`: the `/hidden:` prefix is cut off and a missing room is created. */
    method OpenRoom(c: Sid, name: string, now: int) returns (n: string)
      requires c in sessions && sessions[c].client.Some? && IsClean(name) && Valid()
      modifies this`rooms, this`roomOrder
      ensures Valid()
      ensures n == StripHidden(name).0
      ensures roomOrder == (if n in old(rooms) then old(roomOrder) else old(roomOrder) + [n])
      ensures rooms == old(rooms)[n := JoinBase(old(rooms), n, c, now, StripHidden(name).1)]
    {
      var split := StripHidden(name);
      n := split.0;
      if n !in rooms {
        if split.1 {
          CleanSuffix(name, |HIDDEN_PREFIX|);
          assert n == name[|HIDDEN_PREFIX|..];
        }
        CreateRoom(n, c, now, split.1);
      } else {
        assert rooms == rooms[n := rooms[n]];
      }
    }

    /** `ws.roomName = n` and `ws.clientId = getFreeClientId(n)`, once the socket is in the member list. */
    method TakeSeat(c: Sid, n: string) returns (seat: nat)
      requires c in sessions && n in rooms && Valid()
      modifies this`sessions
      ensures Valid()
      ensures LeastFree(SeatIds(old(sessions), rooms[n].clients), seat)
      ensures sessions == old(sessions)[c := old(sessions)[c].(roomName := Some(n), clientId := Some(seat))]
    {
      seat := GetFreeClientId(SeatIds(sessions, rooms[n].clients));
      var s := sessions[c].(roomName := Some(n), clientId := Some(seat));
      SessionsOkUpdate(rooms, sessions, c, s);
      sessions := sessions[c := s];
    }

    /** `createRoom(n, ws, false, hidden)`, keyed by the sanitized name, which for a clean name is the name itself. */
    method CreateRoom(n: string, c: Sid, now: int, hidden: bool)
      requires n !in rooms && IsClean(n) && c in sessions && sessions[c].client.Some? && Valid()
      modifies this`rooms, this`roomOrder
      ensures Valid()
      ensures rooms == old(rooms)[n := NewRoom(n, Some(c), now, false, hidden)]
      ensures roomOrder == old(roomOrder) + [n]
    {
      var key := Sanitize(n);
      SanitizeClean(n);
      var r := NewRoom(key, Some(c), now, false, hidden);
      assert RoomOk(r, sessions);
      SessionsOkRoom(rooms, sessions, key, r);
      OrderAppended(roomOrder, rooms, key, r);
      rooms := rooms[key := r];
      roomOrder := roomOrder + [key];
    }

    /** `rooms[n].clients.push(ws)`. */
    method Seat(n: string, c: Sid)
      requires n in rooms && c in sessions && sessions[c].client.Some? && Valid()
      modifies this`rooms
      ensures Valid()
      ensures rooms == old(rooms)[n := old(rooms)[n].(clients := old(rooms)[n].clients + [c])]
    {
      var r := rooms[n].(clients := rooms[n].clients + [c]);
      assert RoomOk(r, sessions);
      SessionsOkRoom(rooms, sessions, n, r);
      rooms := rooms[n := r];
    }

    /** The joiner's own frames, built from the table `view` as it stood once it was seated. */
    method Greet(c: Sid, n: string, view: map<Sid, Session>, owner: Option<string>)
      requires n in rooms && c in view && view[c].client.Some?
      modifies this`sessions
      ensures sessions == SendAll(old(sessions), c, Welcome(view[c], rooms[n], view, owner))
    {
      ghost var ss0 := sessions;
      var s := view[c];
      var r := rooms[n];
      var hello := WithText([JOIN_ROOM], s.client.value.uuid);
      SendAllNone(ss0, c);
      SendAllAppend(ss0, c, [], hello);
      assert [] + [hello] == [hello];
      sessions := SendTo(sessions, c, hello);
      ghost var ss1 := sessions;
      SendPlayers(c, r.clients, view, owner);
      SendAllTwice(ss0, c, [hello], PlayerFrames(view, r.clients, owner));
      ghost var sent := [hello] + PlayerFrames(view, r.clients, owner);
      var rest := Trailer(c, r);
      SendAllTwice(ss0, c, sent, rest);
      assert sent + rest == Welcome(view[c], rooms[n], view, owner);
    }

    /** The welcome after the player list: the cursors and the settings. */
    method Trailer(c: Sid, r: Room) returns (ghost sent: seq<Frame>)
      modifies this`sessions
      ensures sent == Epilogue(r)
      ensures sessions == SendAll(old(sessions), c, sent)
    {
      ghost var ss0 := sessions;
      sent := [];
      SendAllNone(ss0, c);
      var snap := Cursors.SnapshotPayload(r.cursors);
      if snap != [] {
        SendAllAppend(ss0, c, sent, Binary([CURSOR_UPDATE] + snap));
        sessions := SendTo(sessions, c, Binary([CURSOR_UPDATE] + snap));
        sent := sent + [Binary([CURSOR_UPDATE] + snap)];
      }
      SendAllAppend(ss0, c, sent, Binary([ROOM_SETTINGS] + SettingsBytes(r)));
      sessions := SendTo(sessions, c, Binary([ROOM_SETTINGS] + SettingsBytes(r)));
      sent := sent + [Binary([ROOM_SETTINGS] + SettingsBytes(r))];
    }

    /** The loop of `joinRoom` that lists the room's players to the joiner, skipping vanished ones. */
    method SendPlayers(c: Sid, members: seq<Sid>, view: map<Sid, Session>, owner: Option<string>)
      modifies this`sessions
      ensures sessions == SendAll(old(sessions), c, PlayerFrames(view, members, owner))
    {
      ghost var ss0 := sessions;
      var i := 0;
      assert members[..0] == [];
      SendAllNone(ss0, c);
      while i < |members|
        invariant 0 <= i <= |members|
        invariant sessions == SendAll(ss0, c, PlayerFrames(view, members[..i], owner))
      {
        var d := members[i];
        assert members[..i + 1][..i] == members[..i];
        ghost var pre := PlayerFrames(view, members[..i], owner);
        if d in view && view[d].client.Some? && !IsVanished(view[d]) {
          SendAllAppend(ss0, c, pre, PlayerJoinedFrame(view[d], owner));
          sessions := SendTo(sessions, c, PlayerJoinedFrame(view[d], owner));
        } else {
          assert pre + [] == pre;
        }
        i := i + 1;
      }
      assert members[..i] == members;
    }

    /** The end of `joinRoom`: the owner came back, so its pending handover is cancelled. */
    method CancelHandover(n: string, cancel: bool)
      requires n in rooms && (cancel ==> rooms[n].transferTimer.Some?) && Valid()
      modifies this`rooms, this`timers
      ensures Valid()
      ensures rooms == (if cancel then old(rooms)[n := old(rooms)[n].(transferTimer := None)] else old(rooms))
      ensures timers == (if cancel then old(timers) - {old(rooms)[n].transferTimer.value} else old(timers))
    {
      if cancel {
        var r := rooms[n];
        timers := timers - {r.transferTimer.value};
        assert RoomOk(r.(transferTimer := None), sessions);
        SessionsOkRoom(rooms, sessions, n, r.(transferTimer := None));
        rooms := rooms[n := r.(transferTimer := None)];
      }
    }

    // -------------------------------------------------------------------
    // Timers (the callbacks `joinRoom` and `leaveRoom` schedule).

    /**
     * The 5-second handover timer `t` fires: when its room is still there,
     * not empty, and the old owner did not come back, the first member
     * becomes owner, every member hears of it, and the new owner is told.
     */
    method FireHandover(t: nat)
      requires Valid()
      modifies this`sessions, this`rooms, this`timers
      ensures Valid()
      ensures t !in old(timers) ==> sessions == old(sessions) && rooms == old(rooms) && timers == old(timers)
      ensures t in old(timers) ==> timers == old(timers) - {t}
      ensures t in old(timers) && !HandsOver(old(rooms), old(sessions), old(timers)[t]) ==>
        sessions == old(sessions) && rooms == old(rooms)
      ensures t in old(timers) && HandsOver(old(rooms), old(sessions), old(timers)[t]) ==>
        var n := old(timers)[t].roomName;
        var r := old(rooms)[n];
        var heir := r.clients[0];
        heir in old(sessions)
        && rooms == old(rooms)[n := r.(owner := Some(heir), transferTimer := None)]
        && sessions == SendTo(Deliver(old(sessions), r.clients, Binary([OWNERSHIP_TRANSFER, old(sessions)[heir].SeatByte()])),
                              heir, SystemMsg(NEW_OWNER_NOTICE))
    {
      if t !in timers {
        return;
      }
      var p := timers[t];
      timers := timers - {t};
      if !HandsOver(rooms, sessions, p) {
        return;
      }
      var n := p.roomName;
      var r := rooms[n];
      var heir := r.clients[0];
      assert RoomOk(r, sessions) && heir in r.clients;
      var seat := sessions[heir].SeatByte();
      var r' := r.(owner := Some(heir), transferTimer := None);
      assert RoomOk(r', sessions);
      SessionsOkRoom(rooms, sessions, n, r');
      rooms := rooms[n := r'];
      Tell(r.clients, Binary([OWNERSHIP_TRANSFER, seat]));
      SendOne(heir, SystemMsg(NEW_OWNER_NOTICE));
    }

    /**
     * One tick of a room's 500 ms cursor flush: a room that is gone or
     * empty stops its flush; otherwise, when some cursor has queued moves,
     * every member gets them in one CURSOR_UPDATE and the queues are drained.
     */
    method FlushTick(n: string)
      requires Valid()
      modifies this`sessions, this`rooms, this`cursorIntervals
      ensures Valid()
      ensures n !in old(cursorIntervals) ==>
        sessions == old(sessions) && rooms == old(rooms) && cursorIntervals == old(cursorIntervals)
      ensures n in old(cursorIntervals) && (n !in old(rooms) || old(rooms)[n].clients == []) ==>
        sessions == old(sessions) && rooms == old(rooms) && cursorIntervals == old(cursorIntervals) - {n}
      ensures n in old(cursorIntervals) && n in old(rooms) && old(rooms)[n].clients != [] ==>
        var r := old(rooms)[n];
        var payload := Cursors.FlushPayload(r.cursors);
        cursorIntervals == old(cursorIntervals)
        && (payload == [] ==> sessions == old(sessions) && rooms == old(rooms))
        && (payload != [] ==>
              rooms == old(rooms)[n := r.(cursors := Cursors.Drained(r.cursors))]
              && sessions == Deliver(old(sessions), r.clients, Binary([CURSOR_UPDATE] + payload)))
    {
      if n !in cursorIntervals {
        return;
      }
      if n !in rooms || rooms[n].clients == [] {
        cursorIntervals := cursorIntervals - {n};
        return;
      }
      var r := rooms[n];
      var payload, after := Cursors.FlushCursors(r.cursors);
      if payload == [] {
        return;
      }
      assert RoomOk(r.(cursors := after), sessions);
      SessionsOkRoom(rooms, sessions, n, r.(cursors := after));
      rooms := rooms[n := r.(cursors := after)];
      Tell(r.clients, Binary([CURSOR_UPDATE] + payload));
    }

    /** The stored history of a persistent room arrives and replaces its chat. */
    method HydrateChat(n: string, rows: seq<ChatMessage>)
      requires Valid()
      modifies this`rooms
      ensures Valid()
      ensures rooms == if n in old(rooms) then old(rooms)[n := old(rooms)[n].(chat := rows)] else old(rooms)
    {
      if n in rooms {
        SetChat(n, rows);
      }
    }

    /** `rooms[n].chat = chat`. */
    method SetChat(n: string, chat: seq<ChatMessage>)
      requires n in rooms && Valid()
      modifies this`rooms
      ensures Valid()
      ensures rooms == old(rooms)[n := old(rooms)[n].(chat := chat)]
    {
      var r := rooms[n].(chat := chat);
      assert RoomOk(r, sessions);
      SessionsOkRoom(rooms, sessions, n, r);
      rooms := rooms[n := r];
    }
    /** The 500ms timer `joinRoom` armed for a vanished joiner fires: the
        earliest pending socket is sent its vanished-mode notice. Sockets are
        never dropped from the table, so it is always there. */
    method FireNotice()
      requires Valid()
      modifies this`sessions, this`notices
      ensures Valid()
      ensures old(notices) == [] ==> sessions == old(sessions) && notices == old(notices)
      ensures old(notices) != [] ==>
        var c := old(notices)[0];
        notices == old(notices)[1..]
        && sessions == if c in old(sessions) then SendTo(old(sessions), c, SystemMsg(VANISHED_NOTICE)) else old(sessions)
    {
      if notices == [] {
        return;
      }
      var c := notices[0];
      notices := notices[1..];
      if c in sessions {
        SendOne(c, SystemMsg(VANISHED_NOTICE));
      }
    }

    // -------------------------------------------------------------------
    // Chat (server/src/services/chatManager.js).

    /** `sendChatHistory`: a socket in a room is sent the room's history. */
    method SendChatHistory(c: Sid, directory: string -> Option<StoredClient>)
      requires c in sessions && Valid()
      modifies this`sessions
      ensures Valid() && OutboxesOnly(old(sessions), sessions)
      ensures var n := old(sessions)[c].RoomKey();
        sessions == if old(sessions)[c].HasRoom() && n in rooms then SendTo(old(sessions), c, HistoryFrame(rooms[n], directory)) else old(sessions)
      ensures HistorySent(old(Snap()), Snap(), c, directory)
    {
      var n := sessions[c].RoomKey();
      if !sessions[c].HasRoom() || n !in rooms {
        return;
      }
      SendOne(c, HistoryFrame(rooms[n], directory));
    }

    /** Several system messages to one socket, in order. */
    method Say(c: Sid, lines: seq<string>)
      requires c in sessions && Valid()
      modifies this`sessions
      ensures Valid() && OutboxesOnly(old(sessions), sessions)
      ensures sessions == SendAll(old(sessions), c, Notices(lines))
    {
      ghost var ss0 := sessions;
      SendAllNone(ss0, c);
      var i := 0;
      while i < |lines|
        invariant 0 <= i <= |lines|
        invariant sessions == SendAll(ss0, c, Notices(lines[..i]))
      {
        assert lines[..i + 1][..i] == lines[..i];
        SendAllAppend(ss0, c, Notices(lines[..i]), SystemMsg(lines[i]));
        sessions := SendTo(sessions, c, SystemMsg(lines[i]));
        i := i + 1;
      }
      assert lines[..i] == lines;
      SendAllKeeps(rooms, ss0, c, Notices(lines));
      assert OutboxesOnly(ss0, sessions);
    }

    /** The sessions, the rooms, the store and the admin-phrase flag after
        `handleChatMessage` for the text `m`; `id` is the id of the posted
        message, "" when none was posted. */
    ghost predicate ChatHandled(pre: Snapshot, post: Snapshot, c: Sid, m: string, now: int, id: string)
    {
      && c in pre.sessions
      && (Chat.InvalidMessage(m) ==>
            post.sessions == SendTo(pre.sessions, c, SystemMsg(Chat.INVALID_NOTICE))
            && post.rooms == pre.rooms && post.store == pre.store && post.adminPhraseUsed == pre.adminPhraseUsed && id == "")
      && (!Chat.InvalidMessage(m) && pre.sessions[c].client.None? ==>
            post.sessions == pre.sessions && post.rooms == pre.rooms && post.store == pre.store
            && post.adminPhraseUsed == pre.adminPhraseUsed && id == "")
      && var s := pre.sessions[c];
         s.client.Some? ==>
           var v := Chat.Decide(s, m, config.adminPhrase, pre.adminPhraseUsed, now);
           && (!v.PhraseClaimed? ==> post.adminPhraseUsed == pre.adminPhraseUsed)
           && (!v.Accepted? ==> id == "")
           && (v.AsCommand? ==> CommandRan(pre, post, c, v.c))
           && (v.DropVanished? ==> post.sessions == pre.sessions && post.rooms == pre.rooms && post.store == pre.store)
           && (v.PhraseTaken? ==> post.sessions == SendTo(pre.sessions, c, SystemMsg(Chat.PHRASE_USED_NOTICE))
                                  && post.rooms == pre.rooms && post.store == pre.store)
           && (v.Throttled? ==> post.sessions == SendTo(pre.sessions, c, SystemMsg(Chat.TOO_FAST_NOTICE))
                                && post.rooms == pre.rooms && post.store == pre.store)
           && (v.PhraseClaimed? ==>
                 post.adminPhraseUsed && post.rooms == pre.rooms
                 && post.store == pre.store + [UpdateAdmin(s.client.value.uuid, true)]
                 && post.sessions == pre.sessions[c := s.(client := Some(s.client.value.(isAdmin := true))).Send(SystemMsg(Chat.NOW_ADMIN_NOTICE))])
           && (v.Accepted? ==> Posted(pre, post, c, m, now, id))
    }

    /**
     * `handleChatMessage` for the trimmed text `m`: an invalid message is
     * refused; an admin's command runs; a vanished player's message is
     * dropped; the admin phrase is claimed once; a message less than 500ms
     * after the last accepted one is refused; anything else is posted.
     */
    method HandleChat(c: Sid, m: string, now: int, pick: nat -> string) returns (id: string)
      requires c in sessions && Valid() && Chat.Injective(pick)
      modifies this`sessions, this`rooms, this`store, this`adminPhraseUsed
      ensures Valid()
      ensures ChatHandled(old(Snap()), Snap(), c, m, now, id)
    {
      id := "";
      if Chat.InvalidMessage(m) {
        SendOne(c, SystemMsg(Chat.INVALID_NOTICE));
        return;
      }
      var s := sessions[c];
      if s.client.None? {
        return;
      }
      var v := Chat.Decide(s, m, config.adminPhrase, adminPhraseUsed, now);
      match v
      case AsCommand(cmd) =>
        RunCommand(c, cmd);
      case DropVanished =>
      case PhraseTaken =>
        SendOne(c, SystemMsg(Chat.PHRASE_USED_NOTICE));
      case PhraseClaimed =>
        ClaimAdmin(c);
      case Throttled =>
        SendOne(c, SystemMsg(Chat.TOO_FAST_NOTICE));
      case Accepted =>
        id := PostMessage(c, m, now, pick);
      case Invalid =>
        assert false;
    }

    /** The admin phrase is claimed: the flag is set for good, the player becomes an admin, in the store too, and is told. */
    method ClaimAdmin(c: Sid)
      requires c in sessions && sessions[c].client.Some? && Valid()
      modifies this`sessions, this`store, this`adminPhraseUsed
      ensures Valid() && adminPhraseUsed
      ensures var s := old(sessions)[c];
        store == old(store) + [UpdateAdmin(s.client.value.uuid, true)]
        && sessions == old(sessions)[c := s.(client := Some(s.client.value.(isAdmin := true))).Send(SystemMsg(Chat.NOW_ADMIN_NOTICE))]
    {
      var s := sessions[c];
      adminPhraseUsed := true;
      var s' := s.(client := Some(s.client.value.(isAdmin := true))).Send(SystemMsg(Chat.NOW_ADMIN_NOTICE));
      store := store + [UpdateAdmin(s.client.value.uuid, true)];
      SessionsOkUpdate(rooms, sessions, c, s');
      sessions := sessions[c := s'];
    }

    /** The sessions, the rooms and the store after the message `m` of the
        player on socket `c` was posted under `id` ("" when it was not). */
    ghost predicate Posted(pre: Snapshot, post: Snapshot, c: Sid, m: string, now: int, id: string)
    {
      && c in pre.sessions && pre.sessions[c].client.Some?
      && var s := pre.sessions[c];
         var n := s.RoomKey();
         && (!(n in pre.rooms && !pre.rooms[n].disableChat) ==>
               id == "" && post.sessions == pre.sessions && post.rooms == pre.rooms && post.store == pre.store)
         && (n in pre.rooms && !pre.rooms[n].disableChat ==>
               var r := pre.rooms[n];
               var msg := ChatMessage(s.client.value.uuid, id, m, s.client.value.color);
               var f := ChatFrame(s, id, m);
               id != "" && (forall k :: 0 <= k < |r.chat| ==> r.chat[k].id != id)
               && post.rooms == pre.rooms[n := r.(chat := Chat.KeepLast(r.chat + [msg], MAX_CHAT_HISTORY))]
               && post.store == pre.store + [SaveMessage(id, msg.author, m, msg.color, s.roomName)]
               && post.sessions == Deliver(pre.sessions, Recipients(pre.rooms, pre.sessions, c, false), f)[c := s.Send(f).(lastMessageSent := now)])
    }

    /**
     * An accepted message: unless the room is gone or has chat disabled, it
     * gets an id no message of the room has, goes to the others and back to
     * the sender, joins the history (trimmed to the last 55), is stored,
     * and restarts the sender's 500ms gap. The room is `rooms[ws.roomName]`
     * with no check that the name is set: a socket that never joined reads
     * the room named "undefined", and one that joined "/hidden:" the room "".
     */
    method PostMessage(c: Sid, m: string, now: int, pick: nat -> string) returns (id: string)
      requires c in sessions && sessions[c].client.Some? && Valid() && Chat.Injective(pick)
      modifies this`sessions, this`rooms, this`store
      ensures Valid()
      ensures Posted(old(Snap()), Snap(), c, m, now, id)
    {
      var s := sessions[c];
      var n := s.RoomKey();
      if n !in rooms || rooms[n].disableChat {
        return "";
      }
      var r := rooms[n];
      id := Chat.GenMessageId(r.chat, pick);
      var f := ChatFrame(s, id, m);
      Announce(c, f, false);
      var msg := ChatMessage(s.client.value.uuid, id, m, s.client.value.color);
      SetChat(n, Chat.KeepLast(r.chat + [msg], MAX_CHAT_HISTORY));
      store := store + [SaveMessage(id, msg.author, m, msg.color, s.roomName)];
      SendStamped(c, f, now);
    }

    /** The sender's own copy of its chat message, which also restarts its chat gap. */
    method SendStamped(c: Sid, f: Frame, now: int)
      requires c in sessions && Valid()
      modifies this`sessions
      ensures Valid()
      ensures sessions == old(sessions)[c := old(sessions)[c].Send(f).(lastMessageSent := now)]
    {
      SessionsOkUpdate(rooms, sessions, c, sessions[c].Send(f).(lastMessageSent := now));
      sessions := sessions[c := sessions[c].Send(f).(lastMessageSent := now)];
    }

    /** The sessions, the rooms and the store after `checkChatCommand` ran
        `cmd` for the admin on socket `c`. */
    ghost predicate CommandRan(pre: Snapshot, post: Snapshot, c: Sid, cmd: Chat.Command)
    {
      && c in pre.sessions && pre.sessions[c].client.Some?
      && (cmd.NotCommand? || cmd.DelCrash? ==> post.sessions == pre.sessions && post.rooms == pre.rooms && post.store == pre.store)
      && (cmd.ListPlayers? ==> ListSent(pre, post, c) && post.rooms == pre.rooms && post.store == pre.store)
      && (cmd.Purge? ==> PurgeDone(pre, post, c, cmd.uuid))
      && (cmd.Del? ==> DelDone(pre, post, c, cmd.id))
      && (cmd.Vanish? ==> VanishToggled(pre, post, c) && post.rooms == pre.rooms)
      && (cmd.PurgeUsage? || cmd.DelUsage? || cmd.SetColorUsage? || cmd.SetNameUsage? ==>
            post.sessions == SendAll(pre.sessions, c, Notices(UsageLines(cmd))) && post.rooms == pre.rooms && post.store == pre.store)
      && (cmd.SetColor? ==>
            post.sessions == SendTo(pre.sessions, c, SystemMsg(COLOR_DONE_NOTICE)) && post.rooms == pre.rooms
            && post.store == pre.store + [UpdateColor(cmd.uuid, cmd.color)])
      && (cmd.SetName? ==>
            post.sessions == SendTo(pre.sessions, c, SystemMsg(NAME_DONE_NOTICE)) && post.rooms == pre.rooms
            && post.store == pre.store + [UpdateName(cmd.uuid, cmd.name)])
    }

    /** `checkChatCommand` once it found a command: usage help for missing arguments, or the command's work. */
    method RunCommand(c: Sid, cmd: Chat.Command)
      requires c in sessions && sessions[c].client.Some? && Valid()
      modifies this`sessions, this`rooms, this`store
      ensures Valid()
      ensures CommandRan(old(Snap()), Snap(), c, cmd)
    {
      if cmd.ListPlayers? || cmd.Purge? || cmd.Del? || cmd.Vanish? {
        RunRoomCommand(c, cmd);
      } else {
        RunStoreCommand(c, cmd);
      }
    }

    /** The commands that read or change the admin's room or player: /list, /purge, /del and /vanish. */
    method RunRoomCommand(c: Sid, cmd: Chat.Command)
      requires c in sessions && sessions[c].client.Some? && Valid()
      requires cmd.ListPlayers? || cmd.Purge? || cmd.Del? || cmd.Vanish?
      modifies this`sessions, this`rooms, this`store
      ensures Valid()
      ensures CommandRan(old(Snap()), Snap(), c, cmd)
    {
      match cmd
      case ListPlayers =>
        ListCmd(c);
      case Purge(uuid) =>
        PurgeCmd(c, uuid);
      case Del(id) =>
        DelCmd(c, id);
      case Vanish =>
        VanishCmd(c);
    }

    /** The other commands: nothing, usage help, or a database update the admin is told about. */
    method RunStoreCommand(c: Sid, cmd: Chat.Command)
      requires c in sessions && sessions[c].client.Some? && Valid()
      requires !(cmd.ListPlayers? || cmd.Purge? || cmd.Del? || cmd.Vanish?)
      modifies this`sessions, this`rooms, this`store
      ensures Valid()
      ensures CommandRan(old(Snap()), Snap(), c, cmd)
    {
      match cmd
      case NotCommand =>
      case DelCrash =>
      case SetColor(uuid, color) =>
        Record(c, UpdateColor(uuid, color), COLOR_DONE_NOTICE);
      case SetName(uuid, name) =>
        Record(c, UpdateName(uuid, name), NAME_DONE_NOTICE);
      case PurgeUsage | DelUsage | SetColorUsage | SetNameUsage =>
        Say(c, UsageLines(cmd));
    }

    /** /setcolor and /setname: the update is written to the database and the admin is told it is done. */
    method Record(c: Sid, op: StoreOp, notice: string)
      requires c in sessions && Valid()
      modifies this`sessions, this`store
      ensures Valid()
      ensures sessions == SendTo(old(sessions), c, SystemMsg(notice)) && store == old(store) + [op]
    {
      store := store + [op];
      SendOne(c, SystemMsg(notice));
    }

    /** The sessions after /list: the reply goes to the admin when its room exists. */
    ghost predicate ListSent(pre: Snapshot, post: Snapshot, c: Sid)
    {
      && c in pre.sessions
      && var n := pre.sessions[c].RoomKey();
         post.sessions == if n in post.rooms then SendAll(pre.sessions, c, ListReply(pre.sessions, post.rooms[n].clients)) else pre.sessions
    }

    /** /list: the head count of the admin's room, then "username - uuid" for each member. */
    method ListCmd(c: Sid)
      requires c in sessions && Valid()
      modifies this`sessions
      ensures Valid()
      ensures ListSent(old(Snap()), Snap(), c)
    {
      var n := sessions[c].RoomKey();
      if n !in rooms {
        return;
      }
      ghost var ss0 := sessions;
      var members := rooms[n].clients;
      var view := sessions;
      SendOne(c, SystemMsg(Chat.PlayerCountLine(|members|)));
      SendAllNone(ss0, c);
      SendAllAppend(ss0, c, [], SystemMsg(Chat.PlayerCountLine(|members|)));
      assert [] + [SystemMsg(Chat.PlayerCountLine(|members|))] == [SystemMsg(Chat.PlayerCountLine(|members|))];
      ghost var ss1 := sessions;
      SendMemberLines(c, members, view);
      SendAllTwice(ss0, c, [SystemMsg(Chat.PlayerCountLine(|members|))], MemberLines(view, members));
      SendAllKeeps(rooms, ss0, c, ListReply(ss0, members));
    }

    /** The loop of /list: one line per member that has a player, read from the table `view`. */
    method SendMemberLines(c: Sid, members: seq<Sid>, view: map<Sid, Session>)
      modifies this`sessions
      ensures sessions == SendAll(old(sessions), c, MemberLines(view, members))
    {
      ghost var ss0 := sessions;
      SendAllNone(ss0, c);
      var i := 0;
      while i < |members|
        invariant 0 <= i <= |members|
        invariant sessions == SendAll(ss0, c, MemberLines(view, members[..i]))
      {
        var d := members[i];
        assert members[..i + 1][..i] == members[..i];
        if d in view && view[d].client.Some? {
          SendAllAppend(ss0, c, MemberLines(view, members[..i]), SystemMsg(Chat.MemberLine(view[d].client.value)));
          sessions := SendTo(sessions, c, SystemMsg(Chat.MemberLine(view[d].client.value)));
        } else {
          assert MemberLines(view, members[..i + 1]) == MemberLines(view, members[..i]);
        }
        i := i + 1;
      }
      assert members[..i] == members;
    }

    /** The sessions, the rooms and the store after /purge: nothing changes
        when the admin's room does not exist. */
    ghost predicate PurgeDone(pre: Snapshot, post: Snapshot, c: Sid, uuid: string)
    {
      && c in pre.sessions
      && (pre.sessions[c].RoomKey() !in pre.rooms ==>
            post.sessions == pre.sessions && post.rooms == pre.rooms && post.store == pre.store)
      && var n := pre.sessions[c].RoomKey();
         n in pre.rooms ==>
           var r := pre.rooms[n];
           var ids := Ids(Chat.ByAuthor(r.chat, uuid));
           post.rooms == pre.rooms[n := r.(chat := Chat.Purged(r.chat, uuid))]
           && post.store == pre.store + (if r.persistent then DeleteOps(ids) else [])
           && post.sessions == SendTo(Notified(pre.sessions, c, Recipients(pre.rooms, pre.sessions, c, true), ids),
                                 c, SystemMsg(PurgedLine(|ids|)))
    }

    /**
     * /purge uuid: every message of that author in the admin's room is
     * announced as deleted, to the admin and to the others (vanished or
     * not), and deleted from the store when the room is persistent; then the
     * history loses them and the admin is told how many there were.
     */
    method PurgeCmd(c: Sid, uuid: string)
      requires c in sessions && Valid()
      modifies this`sessions, this`rooms, this`store
      ensures Valid()
      ensures PurgeDone(old(Snap()), Snap(), c, uuid)
    {
      var n := sessions[c].RoomKey();
      if n !in rooms {
        return;
      }
      var r := rooms[n];
      PurgeAnnounce(c, n, uuid);
      SetChat(n, Chat.Purged(r.chat, uuid));
      SendOne(c, SystemMsg(PurgedLine(|Chat.ByAuthor(r.chat, uuid)|)));
    }

    /** The notices of /purge, where the invariant is at stake. */
    method PurgeAnnounce(c: Sid, n: string, uuid: string)
      requires c in sessions && n in rooms && Valid()
      modifies this`sessions, this`store
      ensures Valid()
      ensures var r := rooms[n];
        var ids := Ids(Chat.ByAuthor(r.chat, uuid));
        store == old(store) + (if r.persistent then DeleteOps(ids) else [])
        && sessions == Notified(old(sessions), c, Recipients(rooms, old(sessions), c, true), ids)
    {
      ghost var ss0 := sessions;
      PurgeNotices(c, n, uuid);
      NotifiedOutboxes(ss0, c, Recipients(rooms, ss0, c, true), Ids(Chat.ByAuthor(rooms[n].chat, uuid)));
      OutboxesKeepClients(ss0, sessions);
      SessionsOkKept(rooms, ss0, sessions);
    }

    /** The loop of /purge over the history of room `n`, the admin's room. */
    method PurgeNotices(c: Sid, n: string, uuid: string)
      requires c in sessions && n in rooms
      modifies this`sessions, this`store
      ensures var r := rooms[n];
        var ids := Ids(Chat.ByAuthor(r.chat, uuid));
        store == old(store) + (if r.persistent then DeleteOps(ids) else [])
        && sessions == Notified(old(sessions), c, Recipients(rooms, old(sessions), c, true), ids)
    {
      ghost var ss0 := sessions;
      ghost var to := Recipients(rooms, ss0, c, true);
      var chat := rooms[n].chat;
      var persistent := rooms[n].persistent;
      ghost var sent: seq<string> := [];
      for i := 0 to |chat|
        invariant c in sessions && Recipients(rooms, sessions, c, true) == to
        invariant sent == Ids(Chat.ByAuthor(chat[..i], uuid))
        invariant sessions == Notified(ss0, c, to, sent)
        invariant store == old(store) + (if persistent then DeleteOps(sent) else [])
      {
        PurgedIdsStep(chat, i, uuid);
        sent := PurgeStep(c, chat[i], uuid, persistent, to, ss0, sent, old(store));
      }
      assert chat[..|chat|] == chat;
    }

    /** One message of the /purge loop: a message of `uuid` is announced as deleted and, in a persistent room, deleted from the store. */
    method PurgeStep(c: Sid, msg: ChatMessage, uuid: string, persistent: bool,
                     ghost to: seq<Sid>, ghost ss0: map<Sid, Session>, ghost sent: seq<string>, ghost log: seq<StoreOp>)
      returns (ghost sent': seq<string>)
      requires c in sessions && Recipients(rooms, sessions, c, true) == to
      requires sessions == Notified(ss0, c, to, sent)
      requires store == log + (if persistent then DeleteOps(sent) else [])
      modifies this`sessions, this`store
      ensures sent' == sent + (if msg.author == uuid then [msg.id] else [])
      ensures c in sessions && Recipients(rooms, sessions, c, true) == to
      ensures sessions == Notified(ss0, c, to, sent')
      ensures store == log + (if persistent then DeleteOps(sent') else [])
    {
      sent' := sent;
      if msg.author == uuid {
        NotifyDelete(c, msg.id, to, ss0, sent);
        if persistent {
          DeleteOpsAppend(log, sent, msg.id);
          store := store + [DeleteMessage(msg.id)];
        }
        sent' := sent + [msg.id];
      } else {
        assert sent + [] == sent;
      }
    }

    /** One step of /purge: the delete notice for `id` to the admin, then to the rest of its room. */
    method NotifyDelete(c: Sid, id: string, ghost to: seq<Sid>, ghost ss0: map<Sid, Session>, ghost sent: seq<string>)
      requires c in sessions && Recipients(rooms, sessions, c, true) == to
      requires sessions == Notified(ss0, c, to, sent)
      modifies this`sessions
      ensures c in sessions && Recipients(rooms, sessions, c, true) == to
      ensures sessions == Notified(ss0, c, to, sent + [id])
    {
      assert (sent + [id])[..|sent|] == sent;
      sessions := SendTo(sessions, c, DeleteFrame(id));
      BroadcastToRoom(c, DeleteFrame(id), true);
    }

    /** The sessions, the rooms and the store after /del: nothing changes
        when the admin's room does not exist. */
    ghost predicate DelDone(pre: Snapshot, post: Snapshot, c: Sid, id: string)
    {
      && c in pre.sessions
      && (pre.sessions[c].RoomKey() !in pre.rooms ==>
            post.sessions == pre.sessions && post.rooms == pre.rooms && post.store == pre.store)
      && var n := pre.sessions[c].RoomKey();
         n in pre.rooms ==>
           var r := pre.rooms[n];
           var ss1 := SendTo(pre.sessions, c, DeleteFrame(id));
           post.rooms == pre.rooms[n := r.(chat := Chat.WithoutId(r.chat, id))]
           && post.store == pre.store + [DeleteMessage(id)]
           && post.sessions == SendTo(Deliver(ss1, Recipients(post.rooms, ss1, c, true), DeleteFrame(id)), c, SystemMsg(DeletedLine(id)))
    }

    /**
     * /del id: the message with that id leaves the admin's room's history
     * and the store, and the delete notice goes to the admin and to the
     * others (vanished or not); then the admin is told.
     */
    method DelCmd(c: Sid, id: string)
      requires c in sessions && Valid()
      modifies this`sessions, this`rooms, this`store
      ensures Valid()
      ensures DelDone(old(Snap()), Snap(), c, id)
    {
      var n := sessions[c].RoomKey();
      if n !in rooms {
        return;
      }
      SetChat(n, Chat.WithoutId(rooms[n].chat, id));
      store := store + [DeleteMessage(id)];
      SendOne(c, DeleteFrame(id));
      Announce(c, DeleteFrame(id), true);
      SendOne(c, SystemMsg(DeletedLine(id)));
    }

    /** The sessions and the store after /vanish, for an admin with a player. */
    ghost predicate VanishToggled(pre: Snapshot, post: Snapshot, c: Sid)
    {
      && c in pre.sessions && pre.sessions[c].client.Some?
      && var s := pre.sessions[c];
         var s1 := s.(client := Some(s.client.value.(username := VanishName(s))));
         var ss1 := pre.sessions[c := s1];
         var left := WithText([PLAYER_LEFT], s.client.value.uuid);
         post.store == pre.store + [UpdateName(s.client.value.uuid, VanishName(s))]
         && (IsVanished(s) ==> post.sessions == pre.sessions[c := SafeClose(s1.Send(SystemMsg(VANISH_OFF_NOTICE)))])
         && (!IsVanished(s) ==>
               post.sessions == Deliver(ss1, Recipients(post.rooms, ss1, c, true), left)[c := SafeClose(s1.Send(SystemMsg(VANISH_ON_NOTICE)))])
    }

    /**
     * /vanish: the admin's name gains or loses the leading "#"; on vanishing
     * the others are told the player left. The admin is told, the store
     * gets the new name, and the socket is closed to force a reconnect.
     */
    method VanishCmd(c: Sid)
      requires c in sessions && sessions[c].client.Some? && Valid()
      modifies this`sessions, this`store
      ensures Valid()
      ensures VanishToggled(old(Snap()), Snap(), c)
    {
      var s := sessions[c];
      Rename(c, VanishName(s));
      if IsVanished(s) {
        SendAndClose(c, SystemMsg(VANISH_OFF_NOTICE));
      } else {
        Announce(c, WithText([PLAYER_LEFT], s.client.value.uuid), true);
        SendAndClose(c, SystemMsg(VANISH_ON_NOTICE));
      }
      store := store + [UpdateName(s.client.value.uuid, VanishName(s))];
    }

    /** The player on socket `c` takes the name `name`; nothing else changes. */
    method Rename(c: Sid, name: string)
      requires c in sessions && sessions[c].client.Some? && Valid()
      modifies this`sessions
      ensures Valid()
      ensures sessions == old(sessions)[c := old(sessions)[c].(client := Some(old(sessions)[c].client.value.(username := name)))]
    {
      var s1 := sessions[c].(client := Some(sessions[c].client.value.(username := name)));
      SessionsOkUpdate(rooms, sessions, c, s1);
      sessions := sessions[c := s1];
    }

    // -------------------------------------------------------------------
    // The message dispatcher (server/src/handlers/websocketHandlers.js)
    // and the close handler (server/src/index.js, clientManager.js).

    /** `rateLimit` where the invariant is at stake. */
    method Throttle(c: Sid, action: string, lim: Limit, now: int) returns (ok: bool)
      requires c in sessions && Valid()
      modifies this`sessions, this`rateLimits
      ensures Valid() && c in sessions
      ensures var key := RateKey(old(sessions)[c].ip, action);
        var w := WindowOf(old(rateLimits), key);
        ok == Allowed(w, now, lim)
        && rateLimits == old(rateLimits)[key := WindowAfter(w, now, lim)]
        && sessions == if ok then old(sessions) else old(sessions)[c := Violation(old(sessions)[c])]
    {
      ghost var ss0 := sessions;
      ok := RateLimit(c, action, lim, now);
      SessionsOkKept(rooms, ss0, sessions);
    }

    /** The state after the JOIN_ROOM branch for the payload `payload`,
        judged by `JoinVerdict` on the validated name. */
    ghost predicate JoinHandled(pre: Snapshot, post: Snapshot, c: Sid, payload: seq<Byte>, directory: string -> Option<StoredClient>, now: int)
    {
      && c in pre.sessions
      && var target := ValidateRoomName(config.utf8(payload));
         var v := JoinVerdict(pre.rooms, pre.sessions, c, target);
         var n := StripHidden(target).0;
         && post.notices == pre.notices + (if v.Go? && IsVanished(pre.sessions[c]) then [c] else [])
         && (!v.Go? ==> post.rooms == pre.rooms && post.roomOrder == pre.roomOrder && post.cursorIntervals == pre.cursorIntervals
                        && post.timers == pre.timers && post.nextTimer == pre.nextTimer)
         && (v.NoPlayer? ==> post.sessions == pre.sessions)
         && (v.AlreadyHere? ==> post.sessions == pre.sessions[c := SafeClose(pre.sessions[c].Send(SystemMsg(ALREADY_HERE_NOTICE)))])
         && (v.Full? ==> post.sessions == SendTo(pre.sessions, c, SystemMsg(ROOM_FULL_NOTICE)))
         && (v.Go? ==> Relocated(pre, post, c, target, now, directory))
    }

    /**
     * The JOIN_ROOM branch once its rate limit passed: a socket without a
     * player is ignored; a player already in the named room is told so and
     * disconnected; a full room (judged by the name as sent) is refused
     * unless the joiner is vanished. Otherwise the player leaves its room,
     * joins the new one, and is sent its history.
     */
    method JoinRequest(c: Sid, payload: seq<Byte>, directory: string -> Option<StoredClient>, now: int)
      requires c in sessions && Valid()
      modifies this`sessions, this`rooms, this`roomOrder, this`cursorIntervals, this`timers, this`nextTimer, this`notices
      ensures Valid()
      ensures JoinHandled(old(Snap()), Snap(), c, payload, directory, now)
    {
      var target := ValidateRoomName(config.utf8(payload));
      if JoinVerdict(rooms, sessions, c, target).Go? {
        AcceptJoin(c, payload, directory, now);
      } else {
        RefuseJoin(c, payload, directory, now);
      }
    }

    /** A join request that is not let through: ignored, or answered with a notice. */
    method RefuseJoin(c: Sid, payload: seq<Byte>, directory: string -> Option<StoredClient>, now: int)
      requires c in sessions && Valid()
      requires !JoinVerdict(rooms, sessions, c, ValidateRoomName(config.utf8(payload))).Go?
      modifies this`sessions
      ensures Valid()
      ensures JoinHandled(old(Snap()), Snap(), c, payload, directory, now)
    {
      var target := ValidateRoomName(config.utf8(payload));
      var v := JoinVerdict(rooms, sessions, c, target);
      ghost var s0 := Snap();
      if v == AlreadyHere {
        SendAndClose(c, SystemMsg(ALREADY_HERE_NOTICE));
        assert Snap() == s0.(sessions := s0.sessions[c := SafeClose(s0.sessions[c].Send(SystemMsg(ALREADY_HERE_NOTICE)))]);
      } else if v == Full {
        SendOne(c, SystemMsg(ROOM_FULL_NOTICE));
        assert Snap() == s0.(sessions := SendTo(s0.sessions, c, SystemMsg(ROOM_FULL_NOTICE)));
      }
    }

    /** A join request that is let through: the socket moves to the room. */
    method AcceptJoin(c: Sid, payload: seq<Byte>, directory: string -> Option<StoredClient>, now: int)
      requires c in sessions && Valid()
      requires JoinVerdict(rooms, sessions, c, ValidateRoomName(config.utf8(payload))).Go?
      modifies this`sessions, this`rooms, this`roomOrder, this`cursorIntervals, this`timers, this`nextTimer, this`notices
      ensures Valid()
      ensures JoinHandled(old(Snap()), Snap(), c, payload, directory, now)
    {
      var target := ValidateRoomName(config.utf8(payload));
      ValidatedClean(config.utf8(payload));
      Proceed(c, target, directory, now);
    }

    /** A last frame to one socket, which is then closed. */
    method SendAndClose(c: Sid, f: Frame)
      requires c in sessions && Valid()
      modifies this`sessions
      ensures Valid()
      ensures sessions == old(sessions)[c := SafeClose(old(sessions)[c].Send(f))]
    {
      SessionsOkUpdate(rooms, sessions, c, SafeClose(sessions[c].Send(f)));
      sessions := sessions[c := SafeClose(sessions[c].Send(f))];
    }

    /** The accepted join request: switch rooms, then send the new room's history. */
    method Proceed(c: Sid, target: string, directory: string -> Option<StoredClient>, now: int)
      requires c in sessions && sessions[c].client.Some? && IsClean(target) && Valid()
      modifies this`sessions, this`rooms, this`roomOrder, this`cursorIntervals, this`timers, this`nextTimer, this`notices
      ensures Valid()
      ensures notices == old(notices) + (if IsVanished(old(sessions)[c]) then [c] else [])
      ensures Relocated(old(Snap()), Snap(), c, target, now, directory)
    {
      ghost var s0 := Snap();
      ghost var left, seat := Switch(c, target, now);
      ghost var joined := Snap();
      SendChatHistory(c, directory);
      assert Arrived(s0, Snap(), c, target, directory);
      StepsRelocate(s0, left, joined, Snap(), c, target, now, directory, seat);
    }

    /** `leaveRoom` when the socket has a room, then `joinRoom`. */
    method Switch(c: Sid, target: string, now: int) returns (ghost left: Snapshot, ghost seat: nat)
      requires c in sessions && sessions[c].client.Some? && IsClean(target) && Valid()
      modifies this`sessions, this`rooms, this`roomOrder, this`cursorIntervals, this`timers, this`nextTimer, this`notices
      ensures Valid()
      ensures notices == old(notices) + (if IsVanished(old(sessions)[c]) then [c] else [])
      ensures var n := StripHidden(target).0;
        n in rooms && c in rooms[n].clients && c in sessions && sessions[c].roomName == Some(n)
        && sessions[c].client == old(sessions)[c].client
      ensures RoomLeft(old(Snap()), left, c) && RoomJoined(left, Snap(), c, target, now, seat)
    {
      if sessions[c].HasRoom() {
        Leave(c);
      } else {
        StayPut(Snap(), c);
      }
      left := Snap();
      seat := Enter(c, target, now);
    }

    /** `leaveRoom` on the whole server; of the leaving socket only its outbox changes. */
    method Leave(c: Sid)
      requires c in sessions && Valid()
      modifies this`sessions, this`rooms, this`roomOrder, this`cursorIntervals, this`timers, this`nextTimer
      ensures Valid() && c in sessions
      ensures sessions[c] == old(sessions)[c].(outbox := sessions[c].outbox)
      ensures RoomLeft(old(Snap()), Snap(), c)
    {
      LeaveRoom(c);
    }

    /** `joinRoom` on the whole server; the joiner is a member of the room and the room is its room. */
    method Enter(c: Sid, target: string, now: int) returns (ghost seat: nat)
      requires c in sessions && sessions[c].client.Some? && IsClean(target) && Valid()
      modifies this`sessions, this`rooms, this`cursorIntervals, this`timers, this`roomOrder, this`notices
      ensures Valid()
      ensures notices == old(notices) + (if IsVanished(old(sessions)[c]) then [c] else [])
      ensures var n := StripHidden(target).0;
        n in rooms && c in rooms[n].clients && c in sessions && sessions[c].roomName == Some(n)
        && sessions[c].client == old(sessions)[c].client
      ensures RoomJoined(old(Snap()), Snap(), c, target, now, seat)
    {
      ghost var s0 := Snap();
      var n, s := JoinRoom(c, target, now);
      seat := s;
      assert RoomJoined(s0, Snap(), c, target, now, seat);
      JoinedMember(s0, Snap(), c, target, now, seat);
    }

    /** The close of a socket: `leaveRoom` on the whole server (through the
        returned state `left`), then its address counts one connection less,
        and it is closed. */
    method Close(c: Sid) returns (ghost left: Snapshot)
      requires c in sessions && Valid()
      modifies this`sessions, this`rooms, this`roomOrder, this`cursorIntervals, this`timers, this`nextTimer, this`concurrent
      ensures Valid()
      ensures RoomLeft(old(Snap()), left, c) && c in left.sessions
      ensures Snap() == left.(sessions := left.sessions[c := left.sessions[c].(state := Closed)])
      ensures concurrent == Release(old(concurrent), old(sessions)[c].addr)
      ensures sessions.Keys == old(sessions).Keys && sessions[c].state == Closed
      ensures var s := old(sessions)[c];
        s.HasRoom() && s.RoomKey() in rooms ==> c !in rooms[s.RoomKey()].clients
    {
      ghost var s0 := Snap();
      Leave(c);
      left := Snap();
      if sessions[c].HasRoom() {
        LeftForGood(s0, left, c);
      }
      concurrent := Release(concurrent, sessions[c].addr);
      SessionsOkUpdate(rooms, sessions, c, sessions[c].(state := Closed));
      sessions := sessions[c := sessions[c].(state := Closed)];
    }

    /**
     * `handleMessage`: the first byte picks the handler, the rest is its
     * payload. Each known opcode is first charged against its own rate
     * limit, keyed by address and action; a refused message only records
     * the violation. An empty message or an unknown opcode changes nothing.
     * A message that passes gets its handler's effect, on the payload after
     * the opcode (decoded and trimmed for SEND_CHAT and SET_NAME), and
     * leaves the state that handler does not touch as it was.
     */
    method HandleMessage(c: Sid, data: seq<Byte>, now: int, uptime: int,
                         directory: string -> Option<StoredClient>, pick: nat -> string)
      returns (ghost posted: string)
      requires c in sessions && Valid() && Chat.Injective(pick)
      modifies this`sessions, this`rooms, this`roomOrder, this`cursorIntervals, this`timers, this`nextTimer
      modifies this`notices, this`rateLimits, this`store, this`adminPhraseUsed
      ensures Valid()
      ensures |data| == 0 || ActionOf(data[0]).None? ==>
        sessions == old(sessions) && rooms == old(rooms) && rateLimits == old(rateLimits) && store == old(store)
        && roomOrder == old(roomOrder) && timers == old(timers) && adminPhraseUsed == old(adminPhraseUsed)
        && cursorIntervals == old(cursorIntervals) && nextTimer == old(nextTimer) && notices == old(notices)
      ensures |data| > 0 && ActionOf(data[0]).Some? ==>
        var (action, lim) := ActionOf(data[0]).value;
        var key := RateKey(old(sessions)[c].ip, action);
        var w := WindowOf(old(rateLimits), key);
        rateLimits == old(rateLimits)[key := WindowAfter(w, now, lim)]
        && (!Allowed(w, now, lim) ==>
              sessions == old(sessions)[c := Violation(old(sessions)[c])] && rooms == old(rooms) && store == old(store)
              && roomOrder == old(roomOrder) && timers == old(timers) && adminPhraseUsed == old(adminPhraseUsed)
              && cursorIntervals == old(cursorIntervals) && nextTimer == old(nextTimer) && notices == old(notices))
      ensures Passes(old(rateLimits), old(sessions)[c], data, now) ==>
        Dispatched(old(Snap()), Snap(), c, data[0], data[1..], now, uptime, directory, posted)
    {
      posted := "";
      if |data| == 0 || ActionOf(data[0]).None? {
        return;
      }
      ghost var s0 := Snap();
      var op := data[0];
      var p := data[1..];
      var (action, lim) := ActionOf(op).value;
      var ok := Throttle(c, action, lim, now);
      if !ok {
        return;
      }
      assert Snap() == s0;
      posted := Dispatch(c, op, p, now, uptime, directory, pick);
    }

    /** The state after the handler of an opcode other than JOIN_ROOM; any
        opcode other than the first eight is PING's. */
    ghost predicate PlayerHandled(pre: Snapshot, post: Snapshot, c: Sid, op: Byte, p: seq<Byte>, now: int, uptime: int, posted: string)
      requires c in pre.sessions
    {
      && (op == SET_CURSOR_POS ==> CursorQueued(pre, post, c, p, now) && post.sessions == pre.sessions)
      && (op == PRESS_NOTE ==> NotePressed(pre, post, c, p, uptime, now))
      && (op == RELEASE_NOTE ==> NoteReleased(pre, post, c, p, uptime))
      && (op == BATCH_NOTES ==> BatchRelayed(pre, post, c, p, uptime, now))
      && (op == SEND_CHAT ==> ChatHandled(pre, post, c, Trim(config.utf8(p)), now, posted))
      && (op == SET_NAME ==> NameTaken(pre, post, c, Trim(config.utf8(p))))
      && (op == UPDATE_ROOM_SETTINGS ==> SettingsSet(pre, post, c, p))
      && (op !in {JOIN_ROOM, SET_CURSOR_POS, PRESS_NOTE, RELEASE_NOTE, BATCH_NOTES, SEND_CHAT, SET_NAME, UPDATE_ROOM_SETTINGS} ==>
            Ponged(pre, post, c, uptime))
      && (op != SEND_CHAT ==> post.adminPhraseUsed == pre.adminPhraseUsed)
      && (op !in {SEND_CHAT, SET_NAME} ==> post.store == pre.store)
      && (op !in {SET_CURSOR_POS, SEND_CHAT, UPDATE_ROOM_SETTINGS} ==> post.rooms == pre.rooms)
    }

    /** The state after the handler of `op` on the payload `p`, and the
        state that handler leaves alone. */
    ghost predicate Dispatched(pre: Snapshot, post: Snapshot, c: Sid, op: Byte, p: seq<Byte>, now: int, uptime: int,
                               directory: string -> Option<StoredClient>, posted: string)
    {
      && c in pre.sessions
      && (op == JOIN_ROOM ==> JoinHandled(pre, post, c, p, directory, now) && post.store == pre.store && post.adminPhraseUsed == pre.adminPhraseUsed)
      && (op != JOIN_ROOM ==>
            PlayerHandled(pre, post, c, op, p, now, uptime, posted)
            && post.roomOrder == pre.roomOrder && post.cursorIntervals == pre.cursorIntervals && post.timers == pre.timers
            && post.nextTimer == pre.nextTimer && post.notices == pre.notices)
    }

    /** The handler of a message that passed its rate limit; any opcode
        other than the first eight is PING's. */
    method Dispatch(c: Sid, op: Byte, p: seq<Byte>, now: int, uptime: int,
                    directory: string -> Option<StoredClient>, pick: nat -> string)
      returns (ghost posted: string)
      requires c in sessions && Valid() && Chat.Injective(pick)
      modifies this`sessions, this`rooms, this`roomOrder, this`cursorIntervals, this`timers, this`nextTimer
      modifies this`notices, this`store, this`adminPhraseUsed
      ensures Valid()
      ensures Dispatched(old(Snap()), Snap(), c, op, p, now, uptime, directory, posted)
    {
      posted := "";
      if op == JOIN_ROOM {
        DispatchJoin(c, p, now, uptime, directory);
      } else {
        posted := DispatchRest(c, op, p, now, uptime, directory, pick);
      }
    }

    /** The JOIN_ROOM case of the `switch`. */
    method DispatchJoin(c: Sid, p: seq<Byte>, now: int, uptime: int, directory: string -> Option<StoredClient>)
      requires c in sessions && Valid()
      modifies this`sessions, this`rooms, this`roomOrder, this`cursorIntervals, this`timers, this`nextTimer, this`notices
      ensures Valid()
      ensures Dispatched(old(Snap()), Snap(), c, JOIN_ROOM, p, now, uptime, directory, "")
    {
      JoinRequest(c, p, directory, now);
    }

    /** The cases of the `switch` other than JOIN_ROOM. */
    method DispatchRest(c: Sid, op: Byte, p: seq<Byte>, now: int, uptime: int,
                        directory: string -> Option<StoredClient>, pick: nat -> string)
      returns (ghost posted: string)
      requires c in sessions && Valid() && Chat.Injective(pick) && op != JOIN_ROOM
      modifies this`sessions, this`rooms, this`store, this`adminPhraseUsed
      ensures Valid()
      ensures Dispatched(old(Snap()), Snap(), c, op, p, now, uptime, directory, posted)
    {
      posted := DispatchPlayer(c, op, p, now, uptime, pick);
    }

    /** The handlers of the opcodes other than JOIN_ROOM. */
    method DispatchPlayer(c: Sid, op: Byte, p: seq<Byte>, now: int, uptime: int, pick: nat -> string)
      returns (ghost posted: string)
      requires c in sessions && Valid() && Chat.Injective(pick)
      modifies this`sessions, this`rooms, this`store, this`adminPhraseUsed
      ensures Valid()
      ensures PlayerHandled(old(Snap()), Snap(), c, op, p, now, uptime, posted)
    {
      posted := "";
      if op == SEND_CHAT {
        posted := HandleChat(c, Trim(config.utf8(p)), now, pick);
      } else {
        DispatchOther(c, op, p, now, uptime);
      }
    }

    /** The handlers of the opcodes other than JOIN_ROOM and SEND_CHAT. */
    method DispatchOther(c: Sid, op: Byte, p: seq<Byte>, now: int, uptime: int)
      requires c in sessions && Valid()
      modifies this`sessions, this`rooms, this`store
      ensures Valid()
      ensures op == SET_CURSOR_POS ==> CursorQueued(old(Snap()), Snap(), c, p, now) && sessions == old(sessions)
      ensures op == PRESS_NOTE ==> NotePressed(old(Snap()), Snap(), c, p, uptime, now)
      ensures op == RELEASE_NOTE ==> NoteReleased(old(Snap()), Snap(), c, p, uptime)
      ensures op == BATCH_NOTES ==> BatchRelayed(old(Snap()), Snap(), c, p, uptime, now)
      ensures op == SET_NAME ==> NameTaken(old(Snap()), Snap(), c, Trim(config.utf8(p)))
      ensures op == UPDATE_ROOM_SETTINGS ==> SettingsSet(old(Snap()), Snap(), c, p)
      ensures op !in {JOIN_ROOM, SET_CURSOR_POS, PRESS_NOTE, RELEASE_NOTE, BATCH_NOTES, SEND_CHAT, SET_NAME, UPDATE_ROOM_SETTINGS} ==>
        Ponged(old(Snap()), Snap(), c, uptime)
      ensures op != SET_NAME ==> store == old(store)
      ensures op !in {SET_CURSOR_POS, UPDATE_ROOM_SETTINGS} ==> rooms == old(rooms)
    {
      if op == SET_CURSOR_POS {
        SetCursor(c, p, now);
      } else if op == PRESS_NOTE {
        PressNote(c, p, uptime, now);
      } else if op == RELEASE_NOTE {
        ReleaseNote(c, p, uptime);
      } else if op == BATCH_NOTES {
        BatchNotes(c, p, uptime, now);
      } else if op == SET_NAME {
        SetName(c, Trim(config.utf8(p)));
      } else if op == UPDATE_ROOM_SETTINGS {
        SetSettings(c, p);
      } else {
        Ping(c, uptime);
      }
    }
  }
}
