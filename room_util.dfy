/** Room-name hygiene and seat allocation (server/src/utils/room.js). */
module RoomUtil {
  import opened Wrappers
  import opened Text
  import opened Protocol
  import opened State

  /** The characters `sanitizeRoomName` deletes: C0 controls, DEL and the
      bidirectional marks, embeddings, overrides and isolates. */
  predicate IsStripped(c: char) {
    var n := c as int;
    n <= 0x1F || n == 0x7F || n == 0x200E || n == 0x200F
    || (0x202A <= n <= 0x202E) || (0x2066 <= n <= 0x2069)
  }

  predicate IsClean(s: string) {
    forall c :: c in s ==> !IsStripped(c)
  }

  function Sanitize(s: string): (r: string)
    ensures IsClean(r)
    ensures |r| <= |s|
  {
    if s == [] then []
    else if IsStripped(s[0]) then Sanitize(s[1..])
    else [s[0]] + Sanitize(s[1..])
  }

  /** Sanitizing works character by character, keeping order. */
  lemma {:induction false} SanitizeConcat(a: string, b: string)
    ensures Sanitize(a + b) == Sanitize(a) + Sanitize(b)
  {
    if a == [] {
      assert a + b == b;
    } else {
      assert (a + b)[0] == a[0];
      assert (a + b)[1..] == a[1..] + b;
      SanitizeConcat(a[1..], b);
    }
  }

  /** A clean name passes through unchanged. */
  lemma {:induction false} SanitizeClean(s: string)
    requires IsClean(s)
    ensures Sanitize(s) == s
  {
    if s != [] {
      assert s[0] in s;
      assert forall c :: c in s[1..] ==> c in s;
      SanitizeClean(s[1..]);
    }
  }

  /** Only the listed characters disappear: every other one is kept. */
  lemma {:induction false} SanitizeKeeps(s: string, c: char)
    ensures c in Sanitize(s) <==> c in s && !IsStripped(c)
  {
    if s != [] {
      SanitizeKeeps(s[1..], c);
      assert c in s <==> c == s[0] || c in s[1..];
    }
  }

  lemma SanitizeIdempotent(s: string)
    ensures Sanitize(Sanitize(s)) == Sanitize(s)
  {
    SanitizeClean(Sanitize(s));
  }

  /** Sanitize, trim, and fall back to the default room unless the result is
      1..60 UTF-16 code units long. */
  function ValidateRoomName(raw: string): string {
    var v := Trim(Sanitize(raw));
    if 0 < Utf16Length(v) <= 60 then v else DEFAULT_ROOM_NAME
  }

  /** The cleaned input is the room name when it is 1..60 code units long and
      the default room otherwise; either way the name is clean, trimmed and
      1..60 code units long. */
  lemma ValidatedName(raw: string)
    ensures 0 < Utf16Length(Trim(Sanitize(raw))) <= 60 ==> ValidateRoomName(raw) == Trim(Sanitize(raw))
    ensures !(0 < Utf16Length(Trim(Sanitize(raw))) <= 60) ==> ValidateRoomName(raw) == DEFAULT_ROOM_NAME
    ensures var r := ValidateRoomName(raw);
      IsClean(r) && 1 <= Utf16Length(r) <= 60 && Trim(r) == r
  {
    var v := Trim(Sanitize(raw));
    if 0 < Utf16Length(v) <= 60 {
      assert ValidateRoomName(raw) == v;
    } else {
      assert ValidateRoomName(raw) == DEFAULT_ROOM_NAME;
    }
    ValidatedShape(raw);
  }

  lemma ValidatedShape(raw: string)
    ensures var r := ValidateRoomName(raw);
      IsClean(r) && 1 <= Utf16Length(r) <= 60 && Trim(r) == r
  {
    var v := Trim(Sanitize(raw));
    if 0 < Utf16Length(v) <= 60 {
      CleanTrim(Sanitize(raw));
      TrimIdempotent(Sanitize(raw));
      assert ValidateRoomName(raw) == v;
    } else {
      LobbyClean();
      LobbyTrimmed();
      LobbyLength();
      assert ValidateRoomName(raw) == DEFAULT_ROOM_NAME;
    }
  }

  lemma ValidatedClean(raw: string)
    ensures IsClean(ValidateRoomName(raw))
  {
    ValidatedShape(raw);
  }

  /** A name that is already clean, trimmed and 1..60 code units long is
      accepted unchanged; in particular validating twice changes nothing. */
  lemma ValidateKeeps(s: string)
    requires IsClean(s) && Trim(s) == s && 1 <= Utf16Length(s) <= 60
    ensures ValidateRoomName(s) == s
  {
    SanitizeClean(s);
    var v := Trim(Sanitize(s));
    assert v == s;
  }

  /** The limit counts code units: 31 copies of U+1F3B9 (a piano emoji) are
      31 characters but 62 units, and the room falls back to the default. */
  lemma ValidateCountsUnits()
    ensures var s := seq(31, _ => '\U{1F3B9}');
      |s| == 31 && ValidateRoomName(s) == DEFAULT_ROOM_NAME
  {
    var s := seq(31, _ => '\U{1F3B9}');
    SanitizeClean(s);
    assert !IsJsWhitespace(s[0]) && !IsJsWhitespace(s[30]);
    assert TrimStart(s) == s;
    assert TrimEnd(s) == s;
    Units(s);
  }

  lemma {:induction false} Units(s: string)
    requires forall k :: 0 <= k < |s| ==> s[k] == '\U{1F3B9}'
    ensures Utf16Length(s) == 2 * |s|
  {
    if s != [] {
      Units(s[1..]);
    }
  }

  lemma ValidateIdempotent(raw: string)
    ensures ValidateRoomName(ValidateRoomName(raw)) == ValidateRoomName(raw)
  {
    ValidatedName(raw);
    ValidateKeeps(ValidateRoomName(raw));
  }

  lemma LobbyClean()
    ensures IsClean(DEFAULT_ROOM_NAME)
  {
    assert forall c :: c in DEFAULT_ROOM_NAME ==> c in {'l', 'o', 'b', 'y'};
  }

  lemma LobbyLength()
    ensures Utf16Length(DEFAULT_ROOM_NAME) == 5
  {
    Utf16LengthBmp(DEFAULT_ROOM_NAME);
  }

  lemma LobbyTrimmed()
    ensures Trim(DEFAULT_ROOM_NAME) == DEFAULT_ROOM_NAME
  {
    assert !IsJsWhitespace(DEFAULT_ROOM_NAME[0]);
    assert TrimStart(DEFAULT_ROOM_NAME) == DEFAULT_ROOM_NAME;
    assert !IsJsWhitespace(DEFAULT_ROOM_NAME[4]);
  }

  lemma CleanTrim(s: string)
    requires IsClean(s)
    ensures IsClean(Trim(s))
  {
  }

  /** What remains after a prefix is cut off a clean name is still clean. */
  lemma CleanSuffix(s: string, k: nat)
    requires IsClean(s) && k <= |s|
    ensures IsClean(s[k..])
  {
    assert forall c :: c in s[k..] ==> c in s;
  }

  // ---------------------------------------------------------------------
  // Seat allocation.

  /** How many seat ids in `ids` are at least `k`. */
  function CountFrom(ids: seq<Option<int>>, k: int): nat {
    if ids == [] then 0
    else (if ids[0].Some? && ids[0].value >= k then 1 else 0) + CountFrom(ids[1..], k)
  }

  lemma {:induction false} CountFromDrops(ids: seq<Option<int>>, k: int)
    ensures CountFrom(ids, k + 1) <= CountFrom(ids, k)
    ensures Some(k) in ids ==> CountFrom(ids, k + 1) < CountFrom(ids, k)
  {
    if ids != [] {
      CountFromDrops(ids[1..], k);
      assert Some(k) in ids ==> ids[0] == Some(k) || Some(k) in ids[1..];
    }
  }

  /** `id` is the least non-negative seat id that `ids` does not hold. */
  predicate LeastFree(ids: seq<Option<int>>, id: nat) {
    Some(id) !in ids && forall k :: 0 <= k < id ==> Some(k) in ids
  }

  /** `getFreeClientId`: the least non-negative seat id no member holds. */
  method GetFreeClientId(ids: seq<Option<int>>) returns (id: nat)
    ensures LeastFree(ids, id)
  {
    id := 0;
    while Some(id) in ids
      invariant forall k :: 0 <= k < id ==> Some(k) in ids
      decreases CountFrom(ids, id)
    {
      CountFromDrops(ids, id);
      id := id + 1;
    }
  }

  /** The seat ids of a member list, in order (`c.clientId` of each member). */
  function SeatIds(ss: map<Sid, Session>, clients: seq<Sid>): (r: seq<Option<int>>)
    ensures |r| == |clients|
    ensures forall i :: 0 <= i < |clients| ==> r[i] == (if clients[i] in ss then ss[clients[i]].clientId else None)
  {
    if clients == [] then []
    else [if clients[0] in ss then ss[clients[0]].clientId else None] + SeatIds(ss, clients[1..])
  }

  predicate RoomExists(rooms: map<string, Room>, name: string) {
    name in rooms
  }

  /** `isUuidInRoom`: the room exists and some member's player has that uuid. */
  predicate IsUuidInRoom(rooms: map<string, Room>, ss: map<Sid, Session>, uuid: string, name: string) {
    RoomExists(rooms, name) && exists c :: c in rooms[name].clients && UuidOf(ss, c) == Some(uuid)
  }
}
