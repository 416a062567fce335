/**
 * The real-time note handlers (server/src/services/pianoManager.js): range
 * and clock-window checks, quota charging, and the batch parser. The room
 * and vanish gating and the relay itself happen in `Server`.
 */
module Piano {
  import opened Wrappers
  import opened Codec
  import opened Protocol
  import opened State
  import opened Clients

  /** `x > hi` for a byte that may be undefined: a comparison with `undefined` is false. */
  predicate Above(b: Option<Byte>, hi: int) {
    b.Some? && b.value > hi
  }

  /** The byte an optional value becomes when written into a byte array. */
  function ByteOf(b: Option<Byte>): Byte {
    b.GetOr(0)
  }

  /** The accepted clock skew: the server's uptime minus the note's
      timestamp lies in [-2000, 5000] milliseconds. */
  predicate InClockWindow(uptime: int, ts: int) {
    -2000 <= uptime - ts <= 5000
  }

  function NoteTs(p: seq<Byte>): int {
    BytesToInt(Sub(p, 2, 6))
  }

  // ---------------------------------------------------------------------
  // Single press and release.

  /** Range and clock checks of a press, before the quota. */
  predicate PressInRange(p: seq<Byte>, uptime: int) {
    !Above(PAt(p, 0), 88) && !Above(PAt(p, 1), 127) && InClockWindow(uptime, NoteTs(p))
  }

  function PressFrame(seat: Byte, p: seq<Byte>): (f: Frame)
    ensures f.Binary? && |f.bytes| == 8 && f.bytes[0] == PRESS_NOTE && f.bytes[1] == seat
  {
    Binary([PRESS_NOTE, seat, ByteOf(PAt(p, 0)), ByteOf(PAt(p, 1))] + IntToBytes(NoteTs(p)))
  }

  /** The quota a played note costs, and the bookkeeping of the last note. */
  function Charge(s: Session, note: Option<Byte>, extra: int, now: int): (r: Session)
    requires s.client.Some?
    ensures r.client.Some? && r.client.value.uuid == s.client.value.uuid
    ensures r.outbox == s.outbox && r.roomName == s.roomName && r.clientId == s.clientId
  {
    var q := s.client.value.noteQuota - 1 - (if s.lastPlayedNote == note then extra else 0);
    s.(client := Some(s.client.value.(noteQuota := q)), lastNotePlayed := now, lastPlayedNote := note)
  }

  datatype Outcome = Outcome(relay: Option<Frame>, after: Session)

  /** `handlePressNote` once the gating passed: relay iff the checks and
      the quota pass; a relayed note costs 1, or 5 when it repeats the
      previous note. */
  function Press(s: Session, p: seq<Byte>, uptime: int, now: int): (o: Outcome)
    requires s.client.Some?
    ensures o.relay.Some? <==> PressInRange(p, uptime) && QuotaOk(s, now)
    ensures o.relay.Some? ==> o.relay.value == PressFrame(s.SeatByte(), p)
    ensures o.relay.Some? ==> (o.after.client.Some? && o.after.client.value.noteQuota ==
                               Refill(s, now) - (if s.lastPlayedNote == PAt(p, 0) then 5 else 1))
    ensures o.relay.Some? ==> o.after.lastNotePlayed == now && o.after.lastPlayedNote == PAt(p, 0)
    ensures !PressInRange(p, uptime) ==> o.after == s
    ensures PressInRange(p, uptime) && !QuotaOk(s, now) ==> o.after == QuotaChecked(s, now)
    ensures o.after.roomName == s.roomName && o.after.clientId == s.clientId && o.after.client.Some?
  {
    if !PressInRange(p, uptime) then Outcome(None, s)
    else
      var c := QuotaChecked(s, now);
      if !QuotaOk(s, now) then Outcome(None, c)
      else Outcome(Some(PressFrame(s.SeatByte(), p)), Charge(c, PAt(p, 0), 4, now))
  }

  /** The release flag: 1 iff the byte is exactly 1. */
  function ReleaseFlag(b: Option<Byte>): (r: Byte)
    ensures r == 1 <==> b == Some(1)
    ensures r == 0 || r == 1
  {
    if b == Some(1) then 1 else 0
  }

  function ReleaseFrame(seat: Byte, p: seq<Byte>): (f: Frame)
    ensures f.Binary? && |f.bytes| == 8 && f.bytes[0] == RELEASE_NOTE && f.bytes[1] == seat
  {
    Binary([RELEASE_NOTE, seat, ByteOf(PAt(p, 0)), ReleaseFlag(PAt(p, 1))] + IntToBytes(NoteTs(p)))
  }

  /** `handleReleaseNote` once the gating passed: no quota, relay iff the note and clock checks pass. */
  function Release(seat: Byte, p: seq<Byte>, uptime: int): (relay: Option<Frame>)
    ensures relay.Some? <==> !Above(PAt(p, 0), 88) && InClockWindow(uptime, NoteTs(p))
  {
    if Above(PAt(p, 0), 88) || !InClockWindow(uptime, NoteTs(p)) then None
    else Some(ReleaseFrame(seat, p))
  }

  // ---------------------------------------------------------------------
  // Batches: a run of 7-byte sub-frames `[op, note, vel|flag, ts x4]`.

  datatype Scan = Scan(ok: bool, after: Session)

  function SubTs(rest: seq<Byte>): int {
    BytesToInt(Sub(rest, 3, 7))
  }

  /** The batch parser's verdict on the sub-frames in `rest`, with repeat
      counter `same`; the socket carries the quota charged so far. */
  function BatchScan(s: Session, rest: seq<Byte>, same: int, uptime: int, now: int): (r: Scan)
    requires s.client.Some?
    ensures r.after.client.Some? && r.after.roomName == s.roomName && r.after.clientId == s.clientId
    decreases |rest|
  {
    if rest == [] then Scan(true, s)
    else
      var op := rest[0];
      if op != PRESS_NOTE && op != RELEASE_NOTE then Scan(false, s)
      else if op == PRESS_NOTE then
        var note := PAt(rest, 1);
        if Above(note, 88) || Above(PAt(rest, 2), 127) then Scan(false, s)
        else if !QuotaOk(s, now) then Scan(false, QuotaChecked(s, now))
        else
          var c := QuotaChecked(s, now);
          var repeat := c.lastPlayedNote == note;
          var charged := Charge(c, note, 2 * same, now);
          if !InClockWindow(uptime, SubTs(rest)) then Scan(false, charged)
          else BatchScan(charged, Drop(rest, 7), if repeat then same + 1 else same, uptime, now)
      else
        var flag := PAt(rest, 2);
        if Above(PAt(rest, 1), 88) || (flag != Some(0) && flag != Some(1)) then Scan(false, s)
        else if !InClockWindow(uptime, SubTs(rest)) then Scan(false, s)
        else BatchScan(s, Drop(rest, 7), same, uptime, now)
  }

  /** `handleBatchNotes`' loop: walks the payload with an index and a
      repeat counter, stopping at the first bad sub-frame. */
  method ScanBatch(s: Session, p: seq<Byte>, uptime: int, now: int) returns (ok: bool, after: Session)
    requires s.client.Some?
    ensures Scan(ok, after) == BatchScan(s, p, 1, uptime, now)
  {
    var same := 1;
    var i := 0;
    after := s;
    while i < |p|
      invariant after.client.Some?
      invariant BatchScan(after, Drop(p, i), same, uptime, now) == BatchScan(s, p, 1, uptime, now)
      decreases |p| - i
    {
      var rest := Drop(p, i);
      assert rest[0] == p[i];
      var op := p[i];
      if op != PRESS_NOTE && op != RELEASE_NOTE {
        return false, after;
      }
      if op == PRESS_NOTE {
        var note := PAt(p, i + 1);
        assert note == PAt(rest, 1);
        if Above(note, 88) {
          return false, after;
        }
        var vel := PAt(p, i + 2);
        assert vel == PAt(rest, 2);
        if Above(vel, 127) {
          return false, after;
        }
        var quotaOk := QuotaOk(after, now);
        after := QuotaChecked(after, now);
        if !quotaOk {
          return false, after;
        }
        var repeat := after.lastPlayedNote == note;
        after := Charge(after, note, 2 * same, now);
        if repeat {
          same := same + 1;
        }
      } else {
        var note := PAt(p, i + 1);
        var flag := PAt(p, i + 2);
        assert note == PAt(rest, 1) && flag == PAt(rest, 2);
        if Above(note, 88) || (flag != Some(0) && flag != Some(1)) {
          return false, after;
        }
      }
      var ts := SubTs(rest);
      if !InClockWindow(uptime, ts) {
        return false, after;
      }
      assert Drop(rest, 7) == Drop(p, i + 7);
      i := i + 7;
    }
    assert Drop(p, i) == [];
    ok := true;
  }

  // ---------------------------------------------------------------------
  // What an accepted batch guarantees.

  /** Every sub-frame of `rest` is a press or release with valid note,
      velocity or flag, and timestamp (the parser's structural checks). */
  predicate SubFramesValid(rest: seq<Byte>, uptime: int)
    decreases |rest|
  {
    rest == [] ||
    ((rest[0] == PRESS_NOTE || rest[0] == RELEASE_NOTE)
     && !Above(PAt(rest, 1), 88)
     && (if rest[0] == PRESS_NOTE then !Above(PAt(rest, 2), 127) else PAt(rest, 2) == Some(0) || PAt(rest, 2) == Some(1))
     && InClockWindow(uptime, SubTs(rest))
     && SubFramesValid(Drop(rest, 7), uptime))
  }

  /** A batch is relayed only if every one of its sub-frames is valid. */
  lemma {:induction false} AcceptedBatchValid(s: Session, rest: seq<Byte>, same: int, uptime: int, now: int)
    requires s.client.Some? && BatchScan(s, rest, same, uptime, now).ok
    ensures SubFramesValid(rest, uptime)
    decreases |rest|
  {
    if rest != [] {
      if rest[0] == PRESS_NOTE {
        var c := QuotaChecked(s, now);
        var note := PAt(rest, 1);
        AcceptedBatchValid(Charge(c, note, 2 * same, now), Drop(rest, 7),
          if c.lastPlayedNote == note then same + 1 else same, uptime, now);
      } else {
        AcceptedBatchValid(s, Drop(rest, 7), same, uptime, now);
      }
    }
  }

  /** Releases cost nothing: a batch of releases leaves the socket as it was. */
  lemma {:induction false} ReleasesAreFree(s: Session, rest: seq<Byte>, same: int, uptime: int, now: int)
    requires s.client.Some?
    requires forall k :: 0 <= k < |rest| && k % 7 == 0 ==> rest[k] == RELEASE_NOTE
    ensures BatchScan(s, rest, same, uptime, now).after == s
    decreases |rest|
  {
    if rest != [] {
      var d := Drop(rest, 7);
      forall k | 0 <= k < |d| && k % 7 == 0
        ensures d[k] == RELEASE_NOTE
      {
        assert d[k] == rest[k + 7];
      }
      ReleasesAreFree(s, d, same, uptime, now);
    }
  }

  function RepeatPress(note: Byte, vel: Byte, ts: seq<Byte>, m: nat): (p: seq<Byte>)
    requires |ts| == 4
    ensures |p| == 7 * m
  {
    if m == 0 then [] else [PRESS_NOTE, note, vel] + ts + RepeatPress(note, vel, ts, m - 1)
  }

  /** Repeating the previous note: with the counter starting at c, m presses
      of the same note cost 1 + 2c, 1 + 2(c+1), ... in turn, m(m + 2c) in all
      (m(m + 2) from the handler's start value 1: the k-th repeat costs 1 + 2k). */
  lemma {:induction false} RepeatCost(s: Session, note: Byte, vel: Byte, ts: seq<Byte>, m: nat, c: nat, uptime: int, now: int)
    requires s.client.Some? && |ts| == 4 && note <= 88 && vel <= 127
    requires s.lastPlayedNote == Some(note) && s.lastNotePlayed == now && now != 0
    requires InClockWindow(uptime, BytesToInt(ts))
    requires s.client.value.noteQuota > m * (m + 2 * c) + 2 * m + 2 * c
    ensures var r := BatchScan(s, RepeatPress(note, vel, ts, m), c, uptime, now);
      r.ok && r.after.client.value.noteQuota == s.client.value.noteQuota - m * (m + 2 * c)
    decreases m
  {
    if m > 0 {
      var p := RepeatPress(note, vel, ts, m);
      assert p[0] == PRESS_NOTE && p[1] == note && p[2] == vel;
      assert Sub(p, 3, 7) == ts;
      assert Drop(p, 7) == RepeatPress(note, vel, ts, m - 1);
      var q := s.client.value.noteQuota;
      assert Refill(s, now) == q;
      var next := Charge(QuotaChecked(s, now), Some(note), 2 * c, now);
      assert next.client.value.noteQuota == q - 1 - 2 * c;
      assert (m - 1) * ((m - 1) + 2 * (c + 1)) + 1 + 2 * c == m * (m + 2 * c);
      RepeatCost(next, note, vel, ts, m - 1, c + 1, uptime, now);
    }
  }

  /** A press sub-frame is charged before its timestamp is checked, and an
      abort refunds nothing. */
  lemma ChargedBeforeClock(s: Session, rest: seq<Byte>, same: int, uptime: int, now: int)
    requires s.client.Some? && |rest| >= 1 && rest[0] == PRESS_NOTE
    requires !Above(PAt(rest, 1), 88) && !Above(PAt(rest, 2), 127) && QuotaOk(s, now)
    requires !InClockWindow(uptime, SubTs(rest))
    ensures var r := BatchScan(s, rest, same, uptime, now);
      !r.ok && r.after.client.value.noteQuota ==
        Refill(s, now) - 1 - (if s.lastPlayedNote == PAt(rest, 1) then 2 * same else 0)
  {
  }
}
