/**
 * Room records and the frames built from them
 * (server/src/services/roomManager.js): the defaults of a new room, the
 * "/hidden:" prefix, the player and settings frames a joiner receives, the
 * settings update loop, the room list, and the chat history frame.
 */
module Rooms {
  import opened Wrappers
  import opened Codec
  import opened Text
  import opened Protocol
  import opened State
  import opened Clients
  import opened Network

  /** `createRoom`: no members, chat filter on, chat and piano enabled, no pending handover. */
  function NewRoom(name: string, owner: Option<Sid>, now: int, persistent: bool, hidden: bool): (r: Room)
    ensures r.name == name && r.clients == [] && r.owner == owner && r.created == now
    ensures r.hidden == hidden && r.persistent == persistent
    ensures r.chatFilter && !r.disableChat && !r.disablePiano
    ensures r.chat == [] && r.cursors == [] && r.transferTimer.None?
  {
    Room(name, [], owner, now, hidden, [], [], persistent, true, false, false, None)
  }

  const HIDDEN_PREFIX := "/hidden:"

  /** `joinRoom`'s reading of the target: the name without a leading "/hidden:", and whether it was there. */
  function StripHidden(name: string): (r: (string, bool))
    ensures r.1 <==> StartsWith(name, HIDDEN_PREFIX)
    ensures r.1 ==> name == HIDDEN_PREFIX + r.0
    ensures !r.1 ==> r.0 == name
  {
    if StartsWith(name, HIDDEN_PREFIX) then (name[8..], true) else (name, false)
  }

  // ---------------------------------------------------------------------
  // Player frames.

  /** 1 when the player is the room's owner (compared by uuid), else 0. */
  function OwnerFlag(s: Session, ownerUuid: Option<string>): int {
    if s.Uuid().Some? && s.Uuid() == ownerUuid then 1 else 0
  }

  /** `[uuid, username, color, clientId, isOwner]`; an unset seat is `null`. */
  function PlayerJson(s: Session, ownerUuid: Option<string>): Json
    requires s.client.Some?
  {
    var c := s.client.value;
    JArr([JStr(c.uuid), JStr(c.username), JStr(c.color),
          if s.clientId.Some? then JNum(s.clientId.value) else JNull,
          JNum(OwnerFlag(s, ownerUuid))])
  }

  function PlayerJoinedFrame(s: Session, ownerUuid: Option<string>): Frame
    requires s.client.Some?
  {
    WithJson([PLAYER_JOINED], PlayerJson(s, ownerUuid))
  }

  /** The PLAYER_JOINED frames a joiner receives: one per member that is not
      vanished, in member order. */
  function PlayerFrames(ss: map<Sid, Session>, members: seq<Sid>, ownerUuid: Option<string>): (r: seq<Frame>)
    ensures |r| <= |members|
  {
    if members == [] then []
    else PlayerFrames(ss, members[..|members| - 1], ownerUuid) + PlayerFrameOf(ss, members[|members| - 1], ownerUuid)
  }

  /** What one member adds to that list: nothing when it has no player or is vanished. */
  function PlayerFrameOf(ss: map<Sid, Session>, c: Sid, ownerUuid: Option<string>): seq<Frame> {
    if c in ss && ss[c].client.Some? && !IsVanished(ss[c]) then [PlayerJoinedFrame(ss[c], ownerUuid)] else []
  }

  /** Vanished members are left out of the list a joiner receives; everyone
      else is listed: every frame in it is that of a member with a player who
      is not vanished, and every such member `c` has its frame in it. */
  lemma {:induction false} PlayerFramesListed(ss: map<Sid, Session>, members: seq<Sid>, ownerUuid: Option<string>, c: Sid)
    requires c in ss && ss[c].client.Some?
    ensures c in members && !IsVanished(ss[c]) ==> PlayerJoinedFrame(ss[c], ownerUuid) in PlayerFrames(ss, members, ownerUuid)
    ensures forall f :: f in PlayerFrames(ss, members, ownerUuid) ==>
      exists d :: d in members && d in ss && ss[d].client.Some? && !IsVanished(ss[d]) && f == PlayerJoinedFrame(ss[d], ownerUuid)
  {
    if members != [] {
      var init := members[..|members| - 1];
      var last := members[|members| - 1];
      PlayerFramesListed(ss, init, ownerUuid, c);
      assert members == init + [last];
      forall f | f in PlayerFrames(ss, members, ownerUuid)
        ensures exists d :: d in members && d in ss && ss[d].client.Some? && !IsVanished(ss[d]) && f == PlayerJoinedFrame(ss[d], ownerUuid)
      {
        if f in PlayerFrames(ss, init, ownerUuid) {
          var d :| d in init && d in ss && ss[d].client.Some? && !IsVanished(ss[d]) && f == PlayerJoinedFrame(ss[d], ownerUuid);
          assert d in members;
        } else {
          assert f in PlayerFrameOf(ss, last, ownerUuid);
          assert last in members;
        }
      }
    }
  }

  // ---------------------------------------------------------------------
  // Settings: one byte per setting, `(id << 1) | bit`, ids 1..4 for
  // hidden, chat filter, chat disabled and piano disabled.

  function Bit(b: bool): Byte {
    if b then 1 else 0
  }

  /** The four settings bytes a joiner receives. */
  function SettingsBytes(r: Room): (b: seq<Byte>)
    ensures |b| == 4
    ensures forall k :: 0 <= k < 4 ==> b[k] / 2 == k + 1
  {
    [2 + Bit(r.hidden), 4 + Bit(r.chatFilter), 6 + Bit(r.disableChat), 8 + Bit(r.disablePiano)]
  }

  /** One settings byte applied: setting `b >> 1` takes the value `b & 1`; other ids change nothing. */
  function SetOne(r: Room, b: Byte): Room {
    var on := b % 2 == 1;
    match b / 2
    case 1 => r.(hidden := on)
    case 2 => r.(chatFilter := on)
    case 3 => r.(disableChat := on)
    case 4 => r.(disablePiano := on)
    case _ => r
  }

  function SettingsApplied(r: Room, p: seq<Byte>): Room
    decreases |p|
  {
    if p == [] then r else SettingsApplied(SetOne(r, p[0]), p[1..])
  }

  /** `setRoomSettings`' loop over the payload. */
  method ApplySettings(r: Room, p: seq<Byte>) returns (r': Room)
    ensures r' == SettingsApplied(r, p)
  {
    r' := r;
    var i := 0;
    while i < |p|
      invariant 0 <= i <= |p|
      invariant SettingsApplied(r', p[i..]) == SettingsApplied(r, p)
    {
      var b := p[i];
      assert p[i..][1..] == p[i + 1..];
      r' := SetOne(r', b);
      i := i + 1;
    }
    assert p[i..] == [];
  }

  /** The value setting `k` ends with: the low bit of the last byte for `k`, or `d` when there is none. */
  function LastFlag(p: seq<Byte>, k: int, d: bool): bool {
    if p == [] then d
    else if p[|p| - 1] / 2 == k then p[|p| - 1] % 2 == 1
    else LastFlag(p[..|p| - 1], k, d)
  }

  lemma {:induction false} SettingsAppend(r: Room, p: seq<Byte>, b: Byte)
    ensures SettingsApplied(r, p + [b]) == SetOne(SettingsApplied(r, p), b)
    decreases |p|
  {
    if p == [] {
      assert p + [b] == [b];
      assert [b][1..] == [];
    } else {
      assert (p + [b])[1..] == p[1..] + [b];
      SettingsAppend(SetOne(r, p[0]), p[1..], b);
    }
  }

  /** The last byte for each setting wins; everything else about the room is kept. */
  lemma {:induction false} LastWriteWins(r: Room, p: seq<Byte>)
    ensures SettingsApplied(r, p) == r.(hidden := LastFlag(p, 1, r.hidden), chatFilter := LastFlag(p, 2, r.chatFilter),
                                         disableChat := LastFlag(p, 3, r.disableChat), disablePiano := LastFlag(p, 4, r.disablePiano))
    decreases |p|
  {
    if p != [] {
      var q := p[..|p| - 1];
      assert q + [p[|p| - 1]] == p;
      SettingsAppend(r, q, p[|p| - 1]);
      LastWriteWins(r, q);
    }
  }

  /** Applying the settings bytes of a room copies its four settings and nothing else. */
  lemma SettingsRoundTrip(r: Room, target: Room)
    ensures SettingsApplied(target, SettingsBytes(r)) ==
      target.(hidden := r.hidden, chatFilter := r.chatFilter, disableChat := r.disableChat, disablePiano := r.disablePiano)
  {
    var b := SettingsBytes(r);
    var r1 := SetOne(target, b[0]);
    var r2 := SetOne(r1, b[1]);
    var r3 := SetOne(r2, b[2]);
    var r4 := SetOne(r3, b[3]);
    assert b[1..][1..] == b[2..] && b[2..][1..] == b[3..] && b[3..][1..] == [];
    assert SettingsApplied(r3, b[3..]) == r4;
    assert SettingsApplied(r2, b[2..]) == r4;
    assert SettingsApplied(r1, b[1..]) == r4;
  }

  // ---------------------------------------------------------------------
  // The room list.

  /** How many members are not vanished. */
  function VisibleCount(ss: map<Sid, Session>, members: seq<Sid>): (n: nat)
    ensures n <= |members|
    ensures (forall i :: 0 <= i < |members| ==> !(members[i] in ss && IsVanished(ss[members[i]]))) ==> n == |members|
    ensures (forall i :: 0 <= i < |members| ==> members[i] in ss && IsVanished(ss[members[i]])) ==> n == 0
  {
    if members == [] then 0
    else (if members[0] in ss && IsVanished(ss[members[0]]) then 0 else 1) + VisibleCount(ss, members[1..])
  }

  /** A room is listed to a socket unless it is hidden and the socket, with a player, is not in it. */
  predicate Listed(rooms: map<string, Room>, name: string, s: Session)
    requires name in rooms
  {
    !rooms[name].hidden || (s.client.Some? && s.roomName == Some(name))
  }

  /** The names listed to a socket, in room order. */
  function ListedNames(rooms: map<string, Room>, order: seq<string>, s: Session): (r: seq<string>)
    ensures forall n :: n in r <==> n in order && n in rooms && Listed(rooms, n, s)
  {
    if order == [] then []
    else if order[0] in rooms && Listed(rooms, order[0], s) then [order[0]] + ListedNames(rooms, order[1..], s)
    else ListedNames(rooms, order[1..], s)
  }

  /** `[index, name, visible count, isMine, persistent, hidden]` per listed room. */
  function RoomListJson(rooms: map<string, Room>, ss: map<Sid, Session>, order: seq<string>, s: Session): (j: Json)
    ensures j.JArr? && |j.items| == |ListedNames(rooms, order, s)|
  {
    var names := ListedNames(rooms, order, s);
    JArr(seq(|names|, i requires 0 <= i < |names| =>
      var r := rooms[names[i]];
      JArr([JNum(i), JStr(names[i]), JNum(VisibleCount(ss, r.clients)),
            JNum(if s.roomName == Some(names[i]) then 1 else 0), JNum(if r.persistent then 1 else 0), JBool(r.hidden)])))
  }

  function RoomListFrame(rooms: map<string, Room>, ss: map<Sid, Session>, order: seq<string>, s: Session): Frame {
    WithJson([ROOM_LIST], RoomListJson(rooms, ss, order, s))
  }

  /** Each listed entry carries its position, and the hidden rooms listed are exactly the requester's own. */
  lemma RoomListEntries(rooms: map<string, Room>, ss: map<Sid, Session>, order: seq<string>, s: Session, i: int)
    requires 0 <= i < |ListedNames(rooms, order, s)|
    ensures var n := ListedNames(rooms, order, s)[i];
      var e := RoomListJson(rooms, ss, order, s).items[i];
      e.JArr? && |e.items| == 6 && e.items[0] == JNum(i) && e.items[1] == JStr(n)
      && (rooms[n].hidden ==> s.client.Some? && s.roomName == Some(n) && e.items[3] == JNum(1))
  {
    var n := ListedNames(rooms, order, s)[i];
    assert n in ListedNames(rooms, order, s);
  }

  /** The list a socket is sent does not depend on what any socket was sent before. */
  lemma RoomListFrameOutboxes(rooms: map<string, Room>, ss: map<Sid, Session>, ss': map<Sid, Session>, order: seq<string>, c: Sid)
    requires OutboxesOnly(ss, ss') && c in ss
    ensures RoomListFrame(rooms, ss', order, ss'[c]) == RoomListFrame(rooms, ss, order, ss[c])
  {
    var s, s' := ss[c], ss'[c];
    ListedNamesSame(rooms, order, s, s');
    var names := ListedNames(rooms, order, s);
    forall n | n in rooms
      ensures VisibleCount(ss', rooms[n].clients) == VisibleCount(ss, rooms[n].clients)
    {
      VisibleCountOutboxes(ss, ss', rooms[n].clients);
    }
    assert RoomListJson(rooms, ss', order, s').items == RoomListJson(rooms, ss, order, s).items;
  }

  lemma {:induction false} VisibleCountOutboxes(ss: map<Sid, Session>, ss': map<Sid, Session>, members: seq<Sid>)
    requires OutboxesOnly(ss, ss')
    ensures VisibleCount(ss', members) == VisibleCount(ss, members)
  {
    if members != [] {
      VisibleCountOutboxes(ss, ss', members[1..]);
    }
  }

  lemma {:induction false} ListedNamesSame(rooms: map<string, Room>, order: seq<string>, s: Session, s': Session)
    requires s'.client == s.client && s'.roomName == s.roomName
    ensures ListedNames(rooms, order, s') == ListedNames(rooms, order, s)
  {
    if order != [] {
      ListedNamesSame(rooms, order[1..], s, s');
    }
  }

  // ---------------------------------------------------------------------
  // The chat history frame.

  /** The name shown for a stored player: without the "#" of a vanished admin. */
  function ShownName(d: StoredClient): string {
    if d.admin != 0 && StartsWith(d.username, "#") then d.username[1..] else d.username
  }

  /** `[uuid, messageId, username, content, color]`, or `null` for an author the store does not know. */
  function HistoryEntry(m: ChatMessage, directory: string -> Option<StoredClient>): Json {
    match directory(m.author)
    case None => JNull
    case Some(d) => JArr([JStr(m.author), JStr(m.id), JStr(ShownName(d)), JStr(m.text), JStr(m.color)])
  }

  function HistoryJson(chat: seq<ChatMessage>, directory: string -> Option<StoredClient>): (j: Json)
    ensures j.JArr? && |j.items| == |chat|
    ensures forall i :: 0 <= i < |chat| ==> j.items[i] == HistoryEntry(chat[i], directory)
  {
    JArr(seq(|chat|, i requires 0 <= i < |chat| => HistoryEntry(chat[i], directory)))
  }

  /** A vanished admin's messages are shown under the name without its "#". */
  lemma ShownNameUnvanished(d: StoredClient)
    ensures !StartsWith(d.username, "#") ==> ShownName(d) == d.username
    ensures d.admin != 0 && StartsWith(d.username, "#") ==> "#" + ShownName(d) == d.username
  {
  }

  // ---------------------------------------------------------------------
  // Player names (clientManager.js `handleClientNameUpdate`).

  predicate HasAlnum(n: string) {
    exists i :: 0 <= i < |n| && IsAsciiAlnum(n[i])
  }

  /** A new name is accepted iff it is 1..60 UTF-16 code units long and has
      at least one ASCII letter or digit. */
  predicate NameOk(n: string) {
    1 <= Utf16Length(n) <= 60 && HasAlnum(n)
  }
}
