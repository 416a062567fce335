/**
 * The page's side of the connection (client/src/socket.js): the player
 * list with its id cache, the cursor elements, the room settings, the ping
 * window and the decoders of `receive`, which hand note events to the
 * scheduler (ClientWorker) and cursor moves to timers.
 *
 * UTF-8 and JSON decoding are the `Decoders` functions; a JSON parse that
 * throws is `None`. A `setTimeout` moving a cursor is logged in
 * `cursorMoves`; a message posted to the scheduler in `toWorker`.
 */
module ClientSocket {
  import opened Wrappers
  import opened Codec
  import opened Protocol
  import opened State
  import opened ClientWorker
  import Rooms

  /** A player as the page keeps it. */
  datatype Player = Player(uuid: string, username: string, color: string, id: int, me: bool, crown: bool)

  /** A PLAYER_JOINED payload after JSON parsing: `[uuid, username, color, id, crown]`. */
  datatype JoinedPlayer = JoinedPlayer(uuid: string, username: string, color: string, id: int, crown: bool)

  /** The player PLAYER_JOINED adds, if the payload parsed; it is this page's when the uuid is ours. */
  function Joining(j: Option<JoinedPlayer>, myUuid: Option<string>): (r: seq<Player>)
    ensures |r| == if j.Some? then 1 else 0
    ensures j.Some? ==> r[0].uuid == j.value.uuid && r[0].id == j.value.id && (r[0].me <==> myUuid == Some(j.value.uuid))
  {
    match j
    case None => []
    case Some(p) => [Player(p.uuid, p.username, p.color, p.id, myUuid == Some(p.uuid), p.crown)]
  }

  datatype Decoders = Decoders(utf8: seq<Byte> -> string, parsePlayer: seq<Byte> -> Option<JoinedPlayer>)

  /** A cursor element: `cursor_<id>` for another player, `cursor_self` (`None`) for one's own. */
  datatype CursorEl = CursorEl(seat: Option<int>, uuid: string)

  /** A cursor timer: after `delay` ms the cursor of `clientId` moves to (x, y) in hundredths of a percent. */
  datatype CursorMove = CursorMove(delay: int, clientId: int, x: int, y: int)

  /** `currentRoom.settings`; the piano flag starts out `undefined`, which reads as false. */
  datatype ClientSettings = ClientSettings(hidden: bool, chatFilter: bool, disableChat: bool, disablePiano: bool)

  const DEFAULT_SETTINGS := ClientSettings(false, true, false, false)

  // ---------------------------------------------------------------------
  // The player list.

  /** `players.find((p) => p.id === id)`. */
  function FirstWithId(ps: seq<Player>, id: int): (r: Option<Player>)
    ensures r.Some? ==> r.value in ps && r.value.id == id
    ensures r.None? ==> forall k :: 0 <= k < |ps| ==> ps[k].id != id
  {
    if ps == [] then None
    else if ps[0].id == id then Some(ps[0])
    else
      var r := FirstWithId(ps[1..], id);
      assert r.None? ==> forall k :: 1 <= k < |ps| ==> ps[k] == ps[1..][k - 1];
      r
  }

  /** `players.find((p) => p.uuid === uuid)`. */
  function FirstWithUuid(ps: seq<Player>, uuid: string): (r: Option<Player>)
    ensures r.Some? ==> r.value in ps && r.value.uuid == uuid
    ensures r.None? ==> forall k :: 0 <= k < |ps| ==> ps[k].uuid != uuid
  {
    if ps == [] then None
    else if ps[0].uuid == uuid then Some(ps[0])
    else
      var r := FirstWithUuid(ps[1..], uuid);
      assert r.None? ==> forall k :: 1 <= k < |ps| ==> ps[k] == ps[1..][k - 1];
      r
  }

  /** `players.filter((p) => p.uuid !== uuid)`. */
  function WithoutUuid(ps: seq<Player>, uuid: string): (r: seq<Player>)
    ensures |r| <= |ps|
    ensures forall i :: 0 <= i < |r| ==> r[i] in ps && r[i].uuid != uuid
  {
    if ps == [] then []
    else (if ps[0].uuid == uuid then [] else [ps[0]]) + WithoutUuid(ps[1..], uuid)
  }

  /** `getPlayerById` as a lookup: the cached player, else the first with that id. */
  function Lookup(cache: map<int, Player>, ps: seq<Player>, id: int): Option<Player> {
    if id in cache then Some(cache[id]) else FirstWithId(ps, id)
  }

  /** Every cached player is the first player with its id. */
  ghost predicate CacheAgrees(cache: map<int, Player>, ps: seq<Player>) {
    forall id :: id in cache ==> FirstWithId(ps, id) == Some(cache[id])
  }

  /** No two players share a uuid. */
  ghost predicate UniqueUuids(ps: seq<Player>) {
    forall i, j :: 0 <= i < j < |ps| ==> ps[i].uuid != ps[j].uuid
  }

  /** Two caches answer every lookup alike. */
  ghost predicate SameLookups(c0: map<int, Player>, c: map<int, Player>, ps: seq<Player>) {
    forall k :: Lookup(c, ps, k) == Lookup(c0, ps, k)
  }

  /** With an agreeing cache, a lookup is the first player with the id. */
  lemma LookupIsFirst(cache: map<int, Player>, ps: seq<Player>, id: int)
    requires CacheAgrees(cache, ps)
    ensures Lookup(cache, ps, id) == FirstWithId(ps, id)
  {
  }

  /** Appending a player keeps the first player of every id that already had one. */
  lemma {:induction false} FirstWithIdSnoc(ps: seq<Player>, p: Player, id: int)
    ensures FirstWithId(ps + [p], id) == if FirstWithId(ps, id).Some? then FirstWithId(ps, id) else if p.id == id then Some(p) else None
    decreases |ps|
  {
    if ps != [] {
      assert (ps + [p])[1..] == ps[1..] + [p];
      FirstWithIdSnoc(ps[1..], p, id);
    } else {
      assert [p][1..] == [];
    }
  }

  /** Filtering out a uuid keeps the first player of every id whose first player has another uuid. */
  lemma {:induction false} FirstWithIdFiltered(ps: seq<Player>, uuid: string, id: int)
    requires FirstWithId(ps, id).Some? && FirstWithId(ps, id).value.uuid != uuid
    ensures FirstWithId(WithoutUuid(ps, uuid), id) == FirstWithId(ps, id)
    decreases |ps|
  {
    var w := WithoutUuid(ps[1..], uuid);
    if ps[0].uuid == uuid {
      assert WithoutUuid(ps, uuid) == w;
    } else {
      assert WithoutUuid(ps, uuid) == [ps[0]] + w;
      assert ([ps[0]] + w)[1..] == w;
    }
    if ps[0].id != id {
      FirstWithIdFiltered(ps[1..], uuid, id);
    }
  }

  /** The filter keeps exactly the players with another uuid. */
  lemma {:induction false} WithoutUuidMembers(ps: seq<Player>, uuid: string)
    ensures forall p :: p in WithoutUuid(ps, uuid) <==> p in ps && p.uuid != uuid
    decreases |ps|
  {
    if ps != [] {
      WithoutUuidMembers(ps[1..], uuid);
      assert forall p :: p in ps <==> p == ps[0] || p in ps[1..];
    }
  }

  /** Under unique uuids, the first player with some uuid is the only one. */
  lemma FirstWithUuidOnly(ps: seq<Player>, uuid: string, p: Player)
    requires UniqueUuids(ps) && FirstWithUuid(ps, uuid).Some? && p in ps && p.uuid == uuid
    ensures p == FirstWithUuid(ps, uuid).value
  {
    var q := FirstWithUuid(ps, uuid).value;
    var i :| 0 <= i < |ps| && ps[i] == p;
    var j :| 0 <= j < |ps| && ps[j] == q;
    assert i == j;
  }

  lemma {:induction false} WithoutUuidUnique(ps: seq<Player>, uuid: string)
    requires UniqueUuids(ps)
    ensures UniqueUuids(WithoutUuid(ps, uuid))
    decreases |ps|
  {
    if ps != [] {
      WithoutUuidUnique(ps[1..], uuid);
      WithoutUuidMembers(ps[1..], uuid);
      var rest := WithoutUuid(ps[1..], uuid);
      assert forall p :: p in rest ==> p.uuid != ps[0].uuid;
      assert WithoutUuid(ps, uuid) == (if ps[0].uuid == uuid then [] else [ps[0]]) + rest;
    }
  }

  /** Removing a uuid's players and the cache entry of the first of them
      keeps a cache that agreed with a list of unique uuids agreeing. */
  lemma RemoveKeepsCache(cache: map<int, Player>, ps: seq<Player>, uuid: string)
    requires UniqueUuids(ps) && CacheAgrees(cache, ps) && FirstWithUuid(ps, uuid).Some?
    ensures UniqueUuids(WithoutUuid(ps, uuid))
    ensures CacheAgrees(cache - {FirstWithUuid(ps, uuid).value.id}, WithoutUuid(ps, uuid))
  {
    var first := FirstWithUuid(ps, uuid).value;
    forall id | id in cache && id != first.id
      ensures FirstWithId(WithoutUuid(ps, uuid), id) == Some(cache[id])
    {
      var q := FirstWithId(ps, id).value;
      if q.uuid == uuid {
        FirstWithUuidOnly(ps, uuid, q);
      }
      FirstWithIdFiltered(ps, uuid, id);
    }
    WithoutUuidUnique(ps, uuid);
  }

  // ---------------------------------------------------------------------
  // Cursor elements.

  /** The cursor element `addPlayer` creates for a player, if any. */
  function ElsOf(p: Player, showSelf: bool): seq<CursorEl> {
    if !p.me then [CursorEl(Some(p.id), p.uuid)]
    else if showSelf then [CursorEl(None, p.uuid)]
    else []
  }

  /** The cursor elements of a player list, in order. */
  function AllEls(ps: seq<Player>, showSelf: bool): seq<CursorEl> {
    if ps == [] then [] else AllEls(ps[..|ps| - 1], showSelf) + ElsOf(ps[|ps| - 1], showSelf)
  }

  /** Removing the elements whose `data-uuid` matches. */
  function ElsWithout(els: seq<CursorEl>, uuid: string): (r: seq<CursorEl>)
    ensures |r| <= |els|
  {
    if els == [] then [] else (if els[0].uuid == uuid then [] else [els[0]]) + ElsWithout(els[1..], uuid)
  }

  lemma ElsWithoutAppend(a: seq<CursorEl>, b: seq<CursorEl>, uuid: string)
    ensures ElsWithout(a + b, uuid) == ElsWithout(a, uuid) + ElsWithout(b, uuid)
  {
    if a != [] {
      assert (a + b)[1..] == a[1..] + b;
      ElsWithoutAppend(a[1..], b, uuid);
    } else {
      assert a + b == b;
    }
  }

  lemma {:induction false} WithoutUuidSnoc(ps: seq<Player>, p: Player, uuid: string)
    ensures WithoutUuid(ps + [p], uuid) == WithoutUuid(ps, uuid) + (if p.uuid == uuid then [] else [p])
    decreases |ps|
  {
    var q := ps + [p];
    if ps == [] {
      assert q == [p] && q[1..] == [];
    } else {
      assert q[0] == ps[0] && q[1..] == ps[1..] + [p];
      WithoutUuidSnoc(ps[1..], p, uuid);
      var head := if ps[0].uuid == uuid then [] else [ps[0]];
      var tail := if p.uuid == uuid then [] else [p];
      assert WithoutUuid(q, uuid) == head + (WithoutUuid(ps[1..], uuid) + tail);
      assert WithoutUuid(ps, uuid) == head + WithoutUuid(ps[1..], uuid);
    }
  }

  /** Removing a uuid's elements leaves the elements of the remaining players. */
  lemma {:induction false} ElsFollowPlayers(ps: seq<Player>, showSelf: bool, uuid: string)
    ensures ElsWithout(AllEls(ps, showSelf), uuid) == AllEls(WithoutUuid(ps, uuid), showSelf)
    decreases |ps|
  {
    if ps != [] {
      var init, last := ps[..|ps| - 1], ps[|ps| - 1];
      assert ps == init + [last];
      ElsFollowPlayers(init, showSelf, uuid);
      ElsWithoutAppend(AllEls(init, showSelf), ElsOf(last, showSelf), uuid);
      WithoutUuidSnoc(init, last, uuid);
      var kept := if last.uuid == uuid then [] else [last];
      AllElsAppend(WithoutUuid(init, uuid), kept, showSelf);
      ElsOfWithout(last, showSelf, uuid);
    }
  }

  lemma ElsOfWithout(p: Player, showSelf: bool, uuid: string)
    ensures ElsWithout(ElsOf(p, showSelf), uuid) == AllEls(if p.uuid == uuid then [] else [p], showSelf)
  {
    var els := ElsOf(p, showSelf);
    if els != [] {
      assert els[1..] == [];
    }
    if p.uuid != uuid {
      assert [p][..0] == [];
    }
  }

  lemma {:induction false} AllElsAppend(a: seq<Player>, b: seq<Player>, showSelf: bool)
    requires |b| <= 1
    ensures AllEls(a + b, showSelf) == AllEls(a, showSelf) + AllEls(b, showSelf)
  {
    if b != [] {
      assert (a + b)[..|a + b| - 1] == a;
      assert b[..0] == [];
    } else {
      assert a + b == a;
    }
  }

  /** Whether `document.getElementById("cursor_" + id)` finds an element. */
  predicate HasCursor(els: seq<CursorEl>, id: int) {
    els != [] && (els[0].seat == Some(id) || HasCursor(els[1..], id))
  }

  lemma {:induction false} HasCursorAppend(a: seq<CursorEl>, b: seq<CursorEl>, id: int)
    ensures HasCursor(a + b, id) == (HasCursor(a, id) || HasCursor(b, id))
    decreases |a|
  {
    if a == [] {
      assert a + b == b;
    } else {
      assert (a + b)[1..] == a[1..] + b;
      HasCursorAppend(a[1..], b, id);
    }
  }

  /** The elements of a player list: exactly the other players have a numbered cursor. */
  lemma {:induction false} HasCursorOfPlayers(ps: seq<Player>, showSelf: bool, id: int)
    ensures HasCursor(AllEls(ps, showSelf), id) <==> exists k :: 0 <= k < |ps| && ps[k].id == id && !ps[k].me
    decreases |ps|
  {
    if ps != [] {
      var init, last := ps[..|ps| - 1], ps[|ps| - 1];
      HasCursorOfPlayers(init, showSelf, id);
      var b := ElsOf(last, showSelf);
      HasCursorAppend(AllEls(init, showSelf), b, id);
      if b != [] {
        assert b[1..] == [];
      }
      assert HasCursor(b, id) <==> last.id == id && !last.me;
      if exists k :: 0 <= k < |init| && init[k].id == id && !init[k].me {
        var k :| 0 <= k < |init| && init[k].id == id && !init[k].me;
        assert ps[k] == init[k];
      }
      if exists k :: 0 <= k < |ps| && ps[k].id == id && !ps[k].me {
        var k :| 0 <= k < |ps| && ps[k].id == id && !ps[k].me;
        if k < |init| {
          assert init[k] == ps[k];
        }
      }
    }
  }

  // ---------------------------------------------------------------------
  // Decoders (pure specifications of the loops in `receive`).

  /** `p.slice(k)` read at offsets: the helpers read past the end as `undefined`. */
  lemma SubShift(p: seq<Byte>, k: nat, a: nat, b: nat)
    requires k <= |p|
    ensures Sub(p[k..], a, b) == Sub(p, k + a, k + b)
    ensures PAt(p[k..], a) == PAt(p, k + a)
  {
  }

  lemma DropDrop(p: seq<Byte>, i: nat, k: nat)
    ensures Drop(Drop(p, i), k) == Drop(p, i + k)
  {
  }

  /** The cursor event whose six bytes start at offset `at`: delay, x and y, two bytes each. */
  function MoveAt(p: seq<Byte>, at: nat, id: int): CursorMove {
    CursorMove(BytesToShort(Sub(p, at, at + 2)), id, BytesToShort(Sub(p, at + 2, at + 4)), BytesToShort(Sub(p, at + 4, at + 6)))
  }

  /** Where event j of a group whose events start at `start` begins. */
  function EventOffset(start: nat, j: nat): nat {
    start + 6 * j
  }

  /** The cursor moves of a group's first `n` events. */
  function Moves(p: seq<Byte>, start: nat, id: int, n: nat): (ms: seq<CursorMove>)
    ensures |ms| == n
  {
    if n == 0 then [] else Moves(p, start, id, n - 1) + [MoveAt(p, EventOffset(start, n - 1), id)]
  }

  /** Where the group after one at offset i with n events begins: past its seat, count and events. */
  function NextGroup(i: nat, n: nat): nat {
    i + 2 + 6 * n
  }

  /** The CURSOR_UPDATE payload from some group on: each group is a seat, a
      count and six bytes per event; an unknown seat or a missing count ends
      the frame, and a seat without a cursor element is skipped. */
  function CursorFrame(p: seq<Byte>, i: nat, cache: map<int, Player>, ps: seq<Player>, els: seq<CursorEl>): seq<CursorMove>
    decreases |p| - i
  {
    if i >= |p| || Lookup(cache, ps, p[i]).None? || i + 1 == |p| then []
    else
      var n: nat := p[i + 1];
      (if HasCursor(els, p[i]) then Moves(p, i + 2, p[i], n) else []) + CursorFrame(p, NextGroup(i, n), cache, ps, els)
  }

  /** One group of a CURSOR_UPDATE payload from a known seat with a count. */
  lemma CursorFrameUnfold(p: seq<Byte>, i: nat, cache: map<int, Player>, ps: seq<Player>, els: seq<CursorEl>)
    requires i + 1 < |p| && Lookup(cache, ps, p[i]).Some?
    ensures var n := p[i + 1] as int;
      CursorFrame(p, i, cache, ps, els)
      == (if HasCursor(els, p[i]) then Moves(p, i + 2, p[i], n) else []) + CursorFrame(p, NextGroup(i, n), cache, ps, els)
  {
  }

  /** A group's moves followed by the rest of the frame are the frame from that group on. */
  lemma GroupStep(p: seq<Byte>, i: nat, cache: map<int, Player>, ps: seq<Player>, els: seq<CursorEl>, moves: seq<CursorMove>)
    requires i + 1 < |p| && Lookup(cache, ps, p[i]).Some?
    requires moves == if HasCursor(els, p[i]) then Moves(p, i + 2, p[i], p[i + 1] as int) else []
    ensures moves + CursorFrame(p, NextGroup(i, p[i + 1] as int), cache, ps, els) == CursorFrame(p, i, cache, ps, els)
  {
    CursorFrameUnfold(p, i, cache, ps, els);
  }

  /** A PRESS_NOTE payload: seat, note, velocity, then the 32-bit timestamp. */
  function PressEventOf(p: seq<Byte>): Option<NoteEvent> {
    if p == [] then None else Some(PressEvent(BytesToInt(Sub(p, 3, 7)), PAt(p, 1), p[0], PAt(p, 2)))
  }

  /** A RELEASE_NOTE payload: seat, note, the all-notes flag (set iff the byte is 1), the timestamp. */
  function ReleaseEventOf(p: seq<Byte>): Option<NoteEvent> {
    if p == [] then None else Some(ReleaseEvent(BytesToInt(Sub(p, 3, 7)), PAt(p, 1), PAt(p, 2) == Some(1), p[0]))
  }

  /** The sub-frames of a BATCH_NOTES payload from some offset on: a press
      or release takes seven bytes, any other opcode two. */
  function BatchFrom(q: seq<Byte>, cid: Byte): seq<NoteEvent>
    decreases |q|
  {
    if q == [] then []
    else if q[0] == PRESS_NOTE then
      [PressEvent(BytesToInt(Sub(q, 3, 7)), PAt(q, 1), cid, PAt(q, 2))] + BatchFrom(Drop(q, 7), cid)
    else if q[0] == RELEASE_NOTE then
      [ReleaseEvent(BytesToInt(Sub(q, 3, 7)), PAt(q, 1), PAt(q, 2) == Some(1), cid)] + BatchFrom(Drop(q, 7), cid)
    else BatchFrom(Drop(q, 2), cid)
  }

  /** One sub-frame of BATCH_NOTES read at offset i of the payload. */
  lemma BatchFromStep(p: seq<Byte>, i: nat, cid: Byte)
    requires i < |p|
    ensures BatchFrom(Drop(p, i), cid)
      == if p[i] == PRESS_NOTE then
           [PressEvent(BytesToInt(Sub(p, i + 3, i + 7)), PAt(p, i + 1), cid, PAt(p, i + 2))] + BatchFrom(Drop(p, i + 7), cid)
         else if p[i] == RELEASE_NOTE then
           [ReleaseEvent(BytesToInt(Sub(p, i + 3, i + 7)), PAt(p, i + 1), PAt(p, i + 2) == Some(1), cid)] + BatchFrom(Drop(p, i + 7), cid)
         else BatchFrom(Drop(p, i + 2), cid)
  {
    var q := Drop(p, i);
    assert q == p[i..];
    SubShift(p, i, 3, 7);
    SubShift(p, i, 1, 2);
    SubShift(p, i, 2, 3);
    DropDrop(p, i, 7);
    DropDrop(p, i, 2);
  }

  function Posts(es: seq<NoteEvent>): (r: seq<WorkerMessage>)
    ensures |r| == |es|
  {
    if es == [] then [] else [AddEvent(es[0])] + Posts(es[1..])
  }

  /** Posting one event and then the rest is posting them all. */
  lemma PostOne(acc: seq<WorkerMessage>, e: NoteEvent, rest: seq<NoteEvent>)
    ensures acc + [AddEvent(e)] + Posts(rest) == acc + Posts([e] + rest)
  {
    assert ([e] + rest)[1..] == rest;
  }

  /** One settings byte on the page: setting `b >> 1` takes `(b & 1) === 1`; other ids change nothing. */
  function ClientSetOne(s: ClientSettings, b: Byte): ClientSettings {
    var on := b % 2 == 1;
    match b / 2
    case 1 => s.(hidden := on)
    case 2 => s.(chatFilter := on)
    case 3 => s.(disableChat := on)
    case 4 => s.(disablePiano := on)
    case _ => s
  }

  /** The ROOM_SETTINGS loop's result, byte by byte. */
  function ClientApplied(s: ClientSettings, p: seq<Byte>): ClientSettings {
    if p == [] then s else ClientSetOne(ClientApplied(s, p[..|p| - 1]), p[|p| - 1])
  }

  /** The page's view of a room's settings. */
  function View(r: Room): ClientSettings {
    ClientSettings(r.hidden, r.chatFilter, r.disableChat, r.disablePiano)
  }

  lemma SetOneAgrees(r: Room, b: Byte)
    ensures ClientSetOne(View(r), b) == View(Rooms.SetOne(r, b))
  {
    var on := b % 2 == 1;
    match b / 2
    case 1 => assert Rooms.SetOne(r, b) == r.(hidden := on);
    case 2 => assert Rooms.SetOne(r, b) == r.(chatFilter := on);
    case 3 => assert Rooms.SetOne(r, b) == r.(disableChat := on);
    case 4 => assert Rooms.SetOne(r, b) == r.(disablePiano := on);
    case _ => assert Rooms.SetOne(r, b) == r;
  }

  /** The page decodes settings bytes exactly as the server applies them. */
  lemma {:induction false} SettingsAgree(r: Room, p: seq<Byte>)
    ensures ClientApplied(View(r), p) == View(Rooms.SettingsApplied(r, p))
    decreases |p|
  {
    if p != [] {
      var init, b := p[..|p| - 1], p[|p| - 1];
      assert init + [b] == p;
      SettingsAgree(r, init);
      Rooms.SettingsAppend(r, init, b);
      SetOneAgrees(Rooms.SettingsApplied(r, init), b);
    }
  }

  /** The inner loop of CURSOR_UPDATE: `n` events of six bytes from
      `start`, each a timer moving the cursor. */
  method ReadMoves(p: seq<Byte>, start: nat, id: Byte, n: nat) returns (moves: seq<CursorMove>)
    ensures moves == Moves(p, start, id, n)
  {
    moves := [];
    for j := 0 to n
      invariant moves == Moves(p, start, id, j)
    {
      var at := EventOffset(start, j);
      var timeOffset := BytesToShort(Sub(p, at, at + 2));
      var x := BytesToShort(Sub(p, at + 2, at + 4));
      var y := BytesToShort(Sub(p, at + 4, at + 6));
      moves := moves + [CursorMove(timeOffset, id, x, y)];
    }
  }

  /** The timers of the CURSOR_UPDATE group at offset i, from a known seat
      with a count; none when the seat has no cursor element. */
  method GroupMoves(p: seq<Byte>, i: nat, ghost cache: map<int, Player>, ghost ps: seq<Player>, els: seq<CursorEl>)
    returns (moves: seq<CursorMove>)
    requires i + 1 < |p| && Lookup(cache, ps, p[i]).Some?
    ensures moves + CursorFrame(p, NextGroup(i, p[i + 1] as int), cache, ps, els) == CursorFrame(p, i, cache, ps, els)
  {
    var n: nat := p[i + 1];
    moves := [];
    if HasCursor(els, p[i]) {
      moves := ReadMoves(p, i + 2, p[i], n);
    }
    GroupStep(p, i, cache, ps, els, moves);
  }

  // ---------------------------------------------------------------------
  // The page's connection state.

  class Client {
    var players: seq<Player>
    var cache: map<int, Player>
    var myUuid: Option<string>
    var myPlayer: Option<Player>
    var cursorEls: seq<CursorEl>
    var settings: ClientSettings
    var serverTimeOffset: real
    var pingMs: seq<real>
    var lastPingTime: real
    var toWorker: seq<WorkerMessage>
    var cursorMoves: seq<CursorMove>
    var socketOpen: bool
    var sent: seq<seq<Byte>>
    /** Every ping sample so far. */
    ghost var pings: seq<real>
    const dec: Decoders
    /** `localStorage` "piano_showselfcursor". */
    const showSelf: bool

    /** The cursor elements are those of the player list, and the ping window holds the latest ten samples. */
    ghost predicate Valid()
      reads this
    {
      cursorEls == AllEls(players, showSelf) && pingMs == Latest(pings, MAX_PINGS)
    }

    constructor (dec: Decoders, showSelf: bool, socketOpen: bool)
      ensures Valid() && players == [] && cache == map[] && myUuid.None? && settings == DEFAULT_SETTINGS
      ensures toWorker == [] && cursorMoves == [] && sent == [] && pingMs == [] && serverTimeOffset == 0.0
      ensures this.dec == dec && this.showSelf == showSelf && this.socketOpen == socketOpen
    {
      players := [];
      cache := map[];
      myUuid := None;
      myPlayer := None;
      cursorEls := [];
      settings := DEFAULT_SETTINGS;
      serverTimeOffset := 0.0;
      pingMs := [];
      lastPingTime := 0.0;
      toWorker := [];
      cursorMoves := [];
      this.socketOpen := socketOpen;
      sent := [];
      pings := [];
      this.dec := dec;
      this.showSelf := showSelf;
    }

    /** `getPlayerById`: the cached player, else the first player with the
        id, which is then cached. Lookups of every id are unchanged by the
        caching, and a cache that agreed with the list still does. */
    method GetPlayerById(id: int) returns (p: Option<Player>)
      modifies this`cache
      ensures p == Lookup(old(cache), players, id)
      ensures cache == if id in old(cache) || p.None? then old(cache) else old(cache)[id := p.value]
      ensures SameLookups(old(cache), cache, players)
      ensures CacheAgrees(old(cache), players) ==> CacheAgrees(cache, players)
    {
      if id in cache {
        return Some(cache[id]);
      }
      p := FirstWithId(players, id);
      if p.None? {
        return;
      }
      cache := cache[id := p.value];
    }

    /** `addPlayer`: the player is appended, becomes `myPlayer` when it is
        this page's, and gets its cursor element. */
    method AddPlayer(p: Player)
      requires Valid()
      modifies this`players, this`myPlayer, this`cursorEls
      ensures Valid()
      ensures players == old(players) + [p]
      ensures myPlayer == if p.me then Some(p) else old(myPlayer)
      ensures CacheAgrees(cache, old(players)) ==> CacheAgrees(cache, players)
    {
      forall id | id in cache
        ensures FirstWithId(players + [p], id) == if FirstWithId(players, id).Some? then FirstWithId(players, id) else if p.id == id then Some(p) else None
      {
        FirstWithIdSnoc(players, p, id);
      }
      assert (players + [p])[..|players|] == players;
      players := players + [p];
      if p.me {
        myPlayer := Some(p);
      }
      cursorEls := cursorEls + ElsOf(p, showSelf);
    }

    /** `removePlayer`: nothing when no player has the uuid; otherwise the
        first such player's id leaves the cache and every player and cursor
        element with the uuid is removed (RemoveKeepsCache: with unique
        uuids the cache still agrees with the list). */
    method RemovePlayer(uuid: string)
      requires Valid()
      modifies this`players, this`cache, this`cursorEls
      ensures Valid()
      ensures FirstWithUuid(old(players), uuid).None? ==>
        players == old(players) && cache == old(cache) && cursorEls == old(cursorEls)
      ensures FirstWithUuid(old(players), uuid).Some? ==>
        players == WithoutUuid(old(players), uuid)
        && cache == old(cache) - {FirstWithUuid(old(players), uuid).value.id}
    {
      var first := FirstWithUuid(players, uuid);
      if first.None? {
        return;
      }
      var kept := WithoutUuid(players, uuid);
      var c := cache - {first.value.id};
      var els := ElsWithout(cursorEls, uuid);
      ElsFollowPlayers(players, showSelf, uuid);
      assert els == AllEls(kept, showSelf);
      cache := c;
      players := kept;
      cursorEls := els;
    }

    /** JOIN_ROOM: the list, the cache and the cursor elements are cleared and the payload is this page's uuid. */
    method Joined(p: seq<Byte>)
      requires Valid()
      modifies this`players, this`cache, this`myUuid, this`cursorEls
      ensures Valid() && players == [] && cache == map[] && myUuid == Some(dec.utf8(p))
    {
      players := [];
      cache := map[];
      myUuid := Some(dec.utf8(p));
      cursorEls := [];
    }

    /** PLAYER_JOINED: a parsed player is added, marked as this page's when its uuid is ours. */
    method PlayerJoined(p: seq<Byte>)
      requires Valid()
      modifies this`players, this`myPlayer, this`cursorEls
      ensures Valid()
      ensures players == old(players) + Joining(dec.parsePlayer(p), myUuid)
    {
      var parsed := dec.parsePlayer(p);
      if parsed.None? {
        return;
      }
      var j := parsed.value;
      AddPlayer(Player(j.uuid, j.username, j.color, j.id, myUuid == Some(j.uuid), j.crown));
    }

    /** The CURSOR_UPDATE loop. */
    method CursorUpdate(p: seq<Byte>)
      modifies this`cache, this`cursorMoves
      ensures cursorMoves == old(cursorMoves) + CursorFrame(p, 0, old(cache), players, cursorEls)
      ensures SameLookups(old(cache), cache, players)
      ensures CacheAgrees(old(cache), players) ==> CacheAgrees(cache, players)
    {
      ghost var c0 := cache;
      ghost var total := cursorMoves + CursorFrame(p, 0, c0, players, cursorEls);
      var i := 0;
      while i < |p|
        invariant SameLookups(c0, cache, players)
        invariant CacheAgrees(c0, players) ==> CacheAgrees(cache, players)
        invariant cursorMoves + CursorFrame(p, i, c0, players, cursorEls) == total
        decreases |p| - i
      {
        var more := CursorGroup(p, i, c0, total);
        if !more {
          return;
        }
        i := NextGroup(i, p[i + 1] as int);
      }
    }

    /** One group of CURSOR_UPDATE at offset i: false when the seat is
        unknown or the count is missing, which ends the frame; otherwise the
        group's timers are set and the next group starts after its events.
        `total` is what the whole frame leaves in `cursorMoves`. */
    method CursorGroup(p: seq<Byte>, i: nat, ghost c0: map<int, Player>, ghost total: seq<CursorMove>) returns (more: bool)
      requires i < |p| && SameLookups(c0, cache, players)
      requires cursorMoves + CursorFrame(p, i, c0, players, cursorEls) == total
      modifies this`cache, this`cursorMoves
      ensures SameLookups(c0, cache, players)
      ensures CacheAgrees(old(cache), players) ==> CacheAgrees(cache, players)
      ensures !more ==> cursorMoves == total
      ensures more ==> i + 1 < |p| && cursorMoves + CursorFrame(p, NextGroup(i, p[i + 1] as int), c0, players, cursorEls) == total
    {
      var clientId := p[i];
      var player := GetPlayerById(clientId);
      if player.None? || i + 1 == |p| {
        return false;
      }
      var moves := GroupMoves(p, i, c0, players, cursorEls);
      ghost var rest := CursorFrame(p, NextGroup(i, p[i + 1] as int), c0, players, cursorEls);
      Regroup(cursorMoves, moves, rest);
      cursorMoves := cursorMoves + moves;
      return true;
    }

    /** PRESS_NOTE and RELEASE_NOTE: the event goes to the scheduler when the seat is a known player. */
    method NoteEvent(p: seq<Byte>, press: bool)
      modifies this`cache, this`toWorker
      ensures var e := if press then PressEventOf(p) else ReleaseEventOf(p);
        toWorker == old(toWorker) + (if e.Some? && Lookup(old(cache), players, p[0]).Some? then [AddEvent(e.value)] else [])
      ensures SameLookups(old(cache), cache, players)
      ensures CacheAgrees(old(cache), players) ==> CacheAgrees(cache, players)
    {
      if |p| == 0 {
        return;
      }
      var player := GetPlayerById(p[0]);
      if player.None? {
        return;
      }
      var e := if press then PressEventOf(p) else ReleaseEventOf(p);
      toWorker := toWorker + [AddEvent(e.value)];
    }

    /** BATCH_NOTES: with a known seat in byte 0, every sub-frame's event goes to the scheduler in order. */
    method BatchNotes(p: seq<Byte>)
      modifies this`cache, this`toWorker
      ensures toWorker == old(toWorker)
        + (if |p| > 0 && Lookup(old(cache), players, p[0]).Some? then Posts(BatchFrom(p[1..], p[0])) else [])
      ensures SameLookups(old(cache), cache, players)
      ensures CacheAgrees(old(cache), players) ==> CacheAgrees(cache, players)
    {
      if |p| == 0 {
        return;
      }
      var clientId := p[0];
      var player := GetPlayerById(clientId);
      if player.None? {
        return;
      }
      assert Drop(p, 1) == p[1..];
      PostBatch(p, clientId);
    }

    /** The sub-frame loop of BATCH_NOTES, from byte 1 on. */
    method PostBatch(p: seq<Byte>, clientId: Byte)
      modifies this`toWorker
      ensures toWorker == old(toWorker) + Posts(BatchFrom(Drop(p, 1), clientId))
    {
      var i := 1;
      while i < |p|
        invariant 1 <= i
        invariant toWorker + Posts(BatchFrom(Drop(p, i), clientId)) == old(toWorker) + Posts(BatchFrom(Drop(p, 1), clientId))
        decreases |p| - i
      {
        BatchFromStep(p, i, clientId);
        var op := p[i];
        var noteUid := PAt(p, i + 1);
        if op == PRESS_NOTE {
          var velocity := PAt(p, i + 2);
          var ts := BytesToInt(Sub(p, i + 3, i + 7));
          var e := PressEvent(ts, noteUid, clientId, velocity);
          PostOne(toWorker, e, BatchFrom(Drop(p, i + 7), clientId));
          toWorker := toWorker + [AddEvent(e)];
          i := i + 7;
        } else if op == RELEASE_NOTE {
          var allPlayings := PAt(p, i + 2) == Some(1);
          var ts := BytesToInt(Sub(p, i + 3, i + 7));
          var e := ReleaseEvent(ts, noteUid, allPlayings, clientId);
          PostOne(toWorker, e, BatchFrom(Drop(p, i + 7), clientId));
          toWorker := toWorker + [AddEvent(e)];
          i := i + 7;
        } else {
          i := i + 2;
        }
      }
      assert Drop(p, i) == [];
    }

    /** ROOM_SETTINGS: each byte sets one flag. */
    method RoomSettings(p: seq<Byte>)
      modifies this`settings
      ensures settings == ClientApplied(old(settings), p)
    {
      var i := 0;
      while i < |p|
        invariant i <= |p|
        invariant settings == ClientApplied(old(settings), p[..i])
      {
        var b := p[i];
        var setting := b / 2;
        var value := b % 2;
        assert p[..i + 1][..i] == p[..i];
        if setting == 1 {
          settings := settings.(hidden := value == 1);
        } else if setting == 2 {
          settings := settings.(chatFilter := value == 1);
        } else if setting == 3 {
          settings := settings.(disableChat := value == 1);
        } else if setting == 4 {
          settings := settings.(disablePiano := value == 1);
        }
        i := i + 1;
      }
      assert p[..i] == p;
    }

    /** PONG at page time `now`: the offset is the server time minus the
        midpoint of the round trip, the round trip joins the ping window,
        and both go to the scheduler. */
    method Pong(p: seq<Byte>, now: real)
      requires Valid()
      modifies this`serverTimeOffset, this`pingMs, this`pings, this`toWorker
      ensures Valid() && |pingMs| <= MAX_PINGS
      ensures serverTimeOffset == BytesToInt(Sub(p, 0, 4)) as real - (old(lastPingTime) + now) / 2.0
      ensures pings == old(pings) + [now - lastPingTime]
      ensures toWorker == old(toWorker) + [SetServerTimeOffset(serverTimeOffset), AddPing(now - lastPingTime)]
    {
      var serverTime := BytesToInt(Sub(p, 0, 4));
      serverTimeOffset := serverTime as real - (lastPingTime + now) / 2.0;
      var sample := now - lastPingTime;
      LatestSnoc(pings, sample, MAX_PINGS);
      pings := pings + [sample];
      pingMs := pingMs + [sample];
      if |pingMs| > MAX_PINGS {
        pingMs := pingMs[1..];
      }
      toWorker := toWorker + [SetServerTimeOffset(serverTimeOffset), AddPing(sample)];
    }

    /** The five-second ping: the send time is recorded and `[99, nonce]`, with a random nonce below 255, goes out on an open socket. */
    method Ping(now: real, nonce: Byte)
      requires nonce < 255
      modifies this`lastPingTime, this`sent
      ensures lastPingTime == now
      ensures sent == old(sent) + (if socketOpen then [[PING, nonce]] else [])
    {
      lastPingTime := now;
      if socketOpen {
        sent := sent + [[PING, nonce]];
      }
    }

    /**
     * `receive`: the first byte picks the handler, the rest is its payload.
     * Each field changes only under the opcodes that write it; an empty
     * message or an unknown opcode changes nothing.
     */
    method Receive(data: seq<Byte>, now: real)
      requires Valid()
      modifies this`players, this`cache, this`myUuid, this`myPlayer, this`cursorEls, this`settings
      modifies this`serverTimeOffset, this`pingMs, this`pings, this`toWorker, this`cursorMoves
      ensures Valid()
      ensures |data| == 0 || data[0] !in {JOIN_ROOM, PLAYER_JOINED, PLAYER_LEFT, CURSOR_UPDATE, PRESS_NOTE,
                                          RELEASE_NOTE, BATCH_NOTES, SEND_CHAT, SET_NAME, OWNERSHIP_TRANSFER} ==>
        cache == old(cache)
      ensures |data| == 0 || data[0] !in {JOIN_ROOM, PLAYER_JOINED, PLAYER_LEFT} ==> players == old(players)
      ensures |data| == 0 || data[0] != JOIN_ROOM ==> myUuid == old(myUuid)
      ensures |data| == 0 || data[0] !in {PRESS_NOTE, RELEASE_NOTE, BATCH_NOTES, PONG} ==> toWorker == old(toWorker)
      ensures |data| == 0 || data[0] != CURSOR_UPDATE ==> cursorMoves == old(cursorMoves)
      ensures |data| == 0 || data[0] != ROOM_SETTINGS ==> settings == old(settings)
      ensures |data| == 0 || data[0] != PONG ==> pings == old(pings)
      ensures |data| > 0 && data[0] == JOIN_ROOM ==> players == [] && cache == map[] && myUuid == Some(dec.utf8(data[1..]))
      ensures |data| > 0 && data[0] == PLAYER_JOINED ==> players == old(players) + Joining(dec.parsePlayer(data[1..]), myUuid)
      ensures |data| > 0 && data[0] == PLAYER_LEFT ==> players == WithoutUuid(old(players), dec.utf8(data[1..]))
      ensures |data| > 0 && data[0] in {PRESS_NOTE, RELEASE_NOTE} ==>
        var p := data[1..];
        var e := if data[0] == PRESS_NOTE then PressEventOf(p) else ReleaseEventOf(p);
        toWorker == old(toWorker) + (if e.Some? && Lookup(old(cache), players, p[0]).Some? then [AddEvent(e.value)] else [])
      ensures |data| > 0 && data[0] == BATCH_NOTES ==>
        var p := data[1..];
        toWorker == old(toWorker)
          + (if |p| > 0 && Lookup(old(cache), players, p[0]).Some? then Posts(BatchFrom(p[1..], p[0])) else [])
      ensures |data| > 0 && data[0] == CURSOR_UPDATE ==>
        cursorMoves == old(cursorMoves) + CursorFrame(data[1..], 0, old(cache), players, cursorEls)
      ensures |data| > 0 && data[0] == ROOM_SETTINGS ==> settings == ClientApplied(old(settings), data[1..])
      ensures |data| > 0 && data[0] == PONG ==>
        toWorker == old(toWorker) + [SetServerTimeOffset(serverTimeOffset), AddPing(now - lastPingTime)]
      ensures (CacheAgrees(old(cache), old(players)) && UniqueUuids(old(players))
               && (|data| == 0 || data[0] !in {JOIN_ROOM, PLAYER_JOINED})) ==>
        CacheAgrees(cache, players) && UniqueUuids(players)
    {
      if |data| == 0 {
        return;
      }
      if data[0] in {JOIN_ROOM, PLAYER_JOINED, PLAYER_LEFT} {
        Roster(data[0], data[1..]);
      } else {
        Relay(data[0], data[1..], now);
      }
    }

    /** The opcodes that change the player list. */
    method Roster(op: Byte, p: seq<Byte>)
      requires Valid() && op in {JOIN_ROOM, PLAYER_JOINED, PLAYER_LEFT}
      modifies this`players, this`cache, this`myUuid, this`myPlayer, this`cursorEls
      ensures Valid()
      ensures op != JOIN_ROOM ==> myUuid == old(myUuid)
      ensures op == JOIN_ROOM ==> players == [] && cache == map[] && myUuid == Some(dec.utf8(p))
      ensures op == PLAYER_JOINED ==> players == old(players) + Joining(dec.parsePlayer(p), myUuid) && cache == old(cache)
      ensures op == PLAYER_LEFT ==> players == WithoutUuid(old(players), dec.utf8(p))
      ensures (CacheAgrees(old(cache), old(players)) && UniqueUuids(old(players)) && op == PLAYER_LEFT) ==>
        CacheAgrees(cache, players) && UniqueUuids(players)
    {
      if op == JOIN_ROOM {
        Joined(p);
      } else if op == PLAYER_JOINED {
        PlayerJoined(p);
      } else {
        var uuid := dec.utf8(p);
        ghost var kept := UniqueUuids(players) && CacheAgrees(cache, players) && FirstWithUuid(players, uuid).Some?;
        RemovePlayer(uuid);
        if kept {
          RemoveKeepsCache(old(cache), old(players), uuid);
        }
        if FirstWithUuid(old(players), uuid).None? {
          WithoutUuidNone(old(players), uuid);
        }
      }
    }

    /** The opcodes that leave the player list as it is. */
    method Relay(op: Byte, p: seq<Byte>, now: real)
      requires Valid() && op !in {JOIN_ROOM, PLAYER_JOINED, PLAYER_LEFT}
      modifies this`cache, this`settings, this`serverTimeOffset, this`pingMs, this`pings, this`toWorker, this`cursorMoves
      ensures Valid()
      ensures op !in {CURSOR_UPDATE, PRESS_NOTE, RELEASE_NOTE, BATCH_NOTES, SEND_CHAT, SET_NAME, OWNERSHIP_TRANSFER} ==>
        cache == old(cache)
      ensures op !in {PRESS_NOTE, RELEASE_NOTE, BATCH_NOTES, PONG} ==> toWorker == old(toWorker)
      ensures op != CURSOR_UPDATE ==> cursorMoves == old(cursorMoves)
      ensures op != ROOM_SETTINGS ==> settings == old(settings)
      ensures op != PONG ==> pings == old(pings)
      ensures op in {PRESS_NOTE, RELEASE_NOTE} ==>
        var e := if op == PRESS_NOTE then PressEventOf(p) else ReleaseEventOf(p);
        toWorker == old(toWorker) + (if e.Some? && Lookup(old(cache), players, p[0]).Some? then [AddEvent(e.value)] else [])
      ensures op == BATCH_NOTES ==>
        toWorker == old(toWorker)
          + (if |p| > 0 && Lookup(old(cache), players, p[0]).Some? then Posts(BatchFrom(p[1..], p[0])) else [])
      ensures op == CURSOR_UPDATE ==> cursorMoves == old(cursorMoves) + CursorFrame(p, 0, old(cache), players, cursorEls)
      ensures op == ROOM_SETTINGS ==> settings == ClientApplied(old(settings), p)
      ensures op == PONG ==>
        toWorker == old(toWorker) + [SetServerTimeOffset(serverTimeOffset), AddPing(now - lastPingTime)]
      ensures CacheAgrees(old(cache), players) ==> CacheAgrees(cache, players)
    {
      if op == CURSOR_UPDATE {
        CursorUpdate(p);
      } else if op == PRESS_NOTE || op == RELEASE_NOTE {
        NoteEvent(p, op == PRESS_NOTE);
      } else if op == BATCH_NOTES {
        BatchNotes(p);
      } else if op == SEND_CHAT || op == SET_NAME || op == OWNERSHIP_TRANSFER {
        if |p| > 0 {
          var _ := GetPlayerById(p[0]);
        }
      } else if op == ROOM_SETTINGS {
        RoomSettings(p);
      } else if op == PONG {
        Pong(p, now);
      }
    }
  }

  /** Filtering out a uuid nobody has keeps the list. */
  lemma {:induction false} WithoutUuidNone(ps: seq<Player>, uuid: string)
    requires FirstWithUuid(ps, uuid).None?
    ensures WithoutUuid(ps, uuid) == ps
    decreases |ps|
  {
    if ps != [] {
      assert FirstWithUuid(ps[1..], uuid).None?;
      WithoutUuidNone(ps[1..], uuid);
    }
  }
}
