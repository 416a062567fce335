/**
 * Cursor sharing on the server (server/src/services/roomManager.js):
 * `updateCursorPosition` queues a timed sample per player, and the periodic
 * flush drains every non-empty queue into one CURSOR_UPDATE payload. On join
 * the newcomer gets a snapshot of every cursor in the same layout.
 *
 * Coordinates are integer hundredths of a percent (0..10000); the source
 * divides by 100 and multiplies back in floating point.
 */
module Cursors {
  import opened Wrappers
  import opened Codec
  import opened Protocol
  import opened State

  /** 100% in hundredths. */
  const FULL_SCALE := 10000

  function PayloadX(p: seq<Byte>): int {
    BytesToShort(Sub(p, 0, 2))
  }

  function PayloadY(p: seq<Byte>): int {
    BytesToShort(Sub(p, 2, 4))
  }

  /** The input check of `updateCursorPosition`: four bytes, both coordinates within 0..100%. */
  predicate CursorPayloadOk(p: seq<Byte>) {
    |p| == 4 && PayloadX(p) <= FULL_SCALE && PayloadY(p) <= FULL_SCALE
  }

  /** The queue of a cursor that may not exist yet. */
  function QueueOf(c: Option<Cursor>): seq<CursorEvent> {
    if c.Some? then c.value.queue else []
  }

  /** The time offset of a new sample: milliseconds since the queue's first
      sample, or 0 when the start time is unset (0 counts as unset). */
  function Offset(start: Option<int>, now: int): int {
    if start.Some? && start.value != 0 then now - start.value else 0
  }

  /** The cursor after a move to (x, y) at `now`. A new cursor takes the
      mover's seat and a zero last position; the start time is reset when
      the queue was empty. */
  function Record(prev: Option<Cursor>, seat: Option<int>, x: int, y: int, now: int): (c: Cursor)
    ensures c.x == x && c.y == y && |c.queue| >= 1
    ensures c.queue == QueueOf(prev) + [CursorEvent(c.queue[|c.queue| - 1].t, x, y)]
  {
    var c := if prev.Some? then prev.value else Cursor(x, y, 0, 0, seat, [], None);
    var start := if c.queue == [] then Some(now) else c.queueStart;
    c.(x := x, y := y, queueStart := start, queue := c.queue + [CursorEvent(Offset(start, now), x, y)])
  }

  /** `updateCursorPosition` on a room's cursor table. */
  function UpdateCursor(cs: seq<CursorEntry>, uuid: string, seat: Option<int>, p: seq<Byte>, now: int): (r: seq<CursorEntry>)
    ensures !CursorPayloadOk(p) ==> r == cs
    ensures CursorPayloadOk(p) ==> FindCursor(r, uuid) == Some(Record(FindCursor(cs, uuid), seat, PayloadX(p), PayloadY(p), now))
    ensures forall u :: u != uuid ==> FindCursor(r, u) == FindCursor(cs, u)
  {
    if !CursorPayloadOk(p) then cs
    else PutCursor(cs, uuid, Record(FindCursor(cs, uuid), seat, PayloadX(p), PayloadY(p), now))
  }

  /** A sample queued on an empty queue is stamped 0 and restarts the clock
      at `now`; one queued behind others is stamped with the time since the
      queue's start. A new cursor takes the mover's seat. */
  lemma RecordTiming(prev: Option<Cursor>, seat: Option<int>, x: int, y: int, now: int)
    ensures var c := Record(prev, seat, x, y, now);
      var e := c.queue[|c.queue| - 1];
      (QueueOf(prev) == [] ==> e.t == 0 && c.queueStart == Some(now))
      && (QueueOf(prev) != [] ==> c.queueStart == prev.value.queueStart && e.t == Offset(prev.value.queueStart, now))
      && (prev.None? ==> c.cid == seat && c.lastX == 0 && c.lastY == 0)
      && (prev.Some? ==> c.cid == prev.value.cid && c.lastX == prev.value.lastX && c.lastY == prev.value.lastY)
  {
  }

  // ---------------------------------------------------------------------
  // The flush tick.

  /** The byte a seat id becomes in the payload (`undefined` reads as 0). */
  function SeatOf(cid: Option<int>): Byte {
    if cid.Some? then ToUint8(cid.value) else 0
  }

  function EventBytes(e: CursorEvent): (r: seq<Byte>)
    ensures |r| == 6
  {
    ShortToBytes(e.t) + ShortToBytes(e.x) + ShortToBytes(e.y)
  }

  function EventsBytes(es: seq<CursorEvent>): (r: seq<Byte>)
    ensures |r| == 6 * |es|
  {
    if es == [] then [] else EventBytes(es[0]) + EventsBytes(es[1..])
  }

  /** One cursor's group: seat, event count, then six bytes per event. */
  function GroupBytes(c: Cursor): seq<Byte> {
    [SeatOf(c.cid), ToUint8(|c.queue|)] + EventsBytes(c.queue)
  }

  /** The flush payload: the group of every cursor with a non-empty queue, in table order. */
  function FlushPayload(cs: seq<CursorEntry>): seq<Byte> {
    if cs == [] then [] else GroupOf(cs[0].cursor) + FlushPayload(cs[1..])
  }

  /** What one cursor adds to the flush payload: nothing when its queue is empty. */
  function GroupOf(c: Cursor): seq<Byte> {
    if c.queue != [] then GroupBytes(c) else []
  }

  lemma FlushPayloadStep(cs: seq<CursorEntry>, i: nat)
    requires i < |cs|
    ensures FlushPayload(cs[i..]) == GroupOf(cs[i].cursor) + FlushPayload(cs[i + 1..])
  {
    assert cs[i..][1..] == cs[i + 1..];
  }

  /** A flushed cursor: its last position is the last queued sample and its queue is empty. */
  function Drain(c: Cursor): (r: Cursor)
    ensures r.queue == [] && r.x == c.x && r.y == c.y && r.cid == c.cid
    ensures c.queue == [] ==> r == c
    ensures c.queue != [] ==> r.lastX == c.queue[|c.queue| - 1].x && r.lastY == c.queue[|c.queue| - 1].y && r.queueStart.None?
  {
    if c.queue == [] then c
    else
      var e := c.queue[|c.queue| - 1];
      c.(lastX := e.x, lastY := e.y, queue := [], queueStart := None)
  }

  function DrainEntry(e: CursorEntry): CursorEntry {
    CursorEntry(e.uuid, Drain(e.cursor))
  }

  /** The cursor table after a flush. */
  function Drained(cs: seq<CursorEntry>): (r: seq<CursorEntry>)
    ensures |r| == |cs|
    ensures forall k :: 0 <= k < |cs| ==> r[k] == DrainEntry(cs[k])
  {
    seq(|cs|, k requires 0 <= k < |cs| => DrainEntry(cs[k]))
  }

  /** One cursor's group, and the position of its last sample (the inner loop of the flush). */
  method EncodeGroup(c: Cursor) returns (group: seq<Byte>, lastX: int, lastY: int)
    requires c.queue != []
    ensures group == GroupBytes(c)
    ensures lastX == c.queue[|c.queue| - 1].x && lastY == c.queue[|c.queue| - 1].y
  {
    group := [SeatOf(c.cid), ToUint8(|c.queue|)];
    lastX, lastY := c.lastX, c.lastY;
    var j := 0;
    while j < |c.queue|
      invariant 0 <= j <= |c.queue|
      invariant group + EventsBytes(c.queue[j..]) == GroupBytes(c)
      invariant j > 0 ==> lastX == c.queue[j - 1].x && lastY == c.queue[j - 1].y
    {
      var ev := c.queue[j];
      assert c.queue[j..][1..] == c.queue[j + 1..];
      assert group + EventsBytes(c.queue[j..]) == (group + EventBytes(ev)) + EventsBytes(c.queue[j + 1..]);
      group := group + EventBytes(ev);
      lastX, lastY := ev.x, ev.y;
      j := j + 1;
    }
    assert c.queue[j..] == [];
    assert group == group + EventsBytes(c.queue[j..]);
  }

  /** The body of the flush interval on one room's cursor table: the
      payload it sends and the table it leaves. */
  method FlushCursors(cs: seq<CursorEntry>) returns (payload: seq<Byte>, after: seq<CursorEntry>)
    ensures payload == FlushPayload(cs)
    ensures after == Drained(cs)
  {
    payload := [];
    after := [];
    var i := 0;
    while i < |cs|
      invariant 0 <= i <= |cs|
      invariant payload + FlushPayload(cs[i..]) == FlushPayload(cs)
      invariant after == Drained(cs[..i])
    {
      var group, d := FlushOne(cs[i].cursor);
      FlushPayloadStep(cs, i);
      Regroup(payload, group, FlushPayload(cs[i + 1..]));
      payload := payload + group;
      DrainedSnoc(cs, i);
      after := after + [CursorEntry(cs[i].uuid, d)];
      i := i + 1;
    }
    assert cs[..i] == cs;
    assert cs[i..] == [];
    assert payload == payload + FlushPayload(cs[i..]);
  }

  lemma DrainedSnoc(cs: seq<CursorEntry>, i: nat)
    requires i < |cs|
    ensures Drained(cs[..i + 1]) == Drained(cs[..i]) + [DrainEntry(cs[i])]
  {
  }

  /** One cursor of the flush: its group when it has queued samples, and the cursor it leaves. */
  method FlushOne(c: Cursor) returns (group: seq<Byte>, d: Cursor)
    ensures group == GroupOf(c)
    ensures d == Drain(c)
  {
    group, d := [], c;
    if |c.queue| > 0 {
      var lastX, lastY;
      group, lastX, lastY := EncodeGroup(c);
      d := c.(lastX := lastX, lastY := lastY, queue := [], queueStart := None);
    }
  }

  predicate AllIdle(cs: seq<CursorEntry>) {
    forall k :: 0 <= k < |cs| ==> cs[k].cursor.queue == []
  }

  /** A tick sends nothing exactly when every queue is empty. */
  lemma {:induction false} FlushEmptyIffIdle(cs: seq<CursorEntry>)
    ensures FlushPayload(cs) == [] <==> AllIdle(cs)
  {
    if cs != [] {
      FlushEmptyIffIdle(cs[1..]);
      assert AllIdle(cs) <==> cs[0].cursor.queue == [] && AllIdle(cs[1..]) by {
        assert forall k :: 1 <= k < |cs| ==> cs[k] == cs[1..][k - 1];
      }
    }
  }

  /** After a tick every queue is empty, so the next tick sends nothing;
      the players and positions of the table are kept. */
  lemma FlushDrainsAll(cs: seq<CursorEntry>)
    ensures AllIdle(Drained(cs))
    ensures FlushPayload(Drained(cs)) == []
    ensures forall k :: 0 <= k < |cs| ==> Drained(cs)[k].uuid == cs[k].uuid
  {
    FlushEmptyIffIdle(Drained(cs));
  }

  // ---------------------------------------------------------------------
  // The join snapshot: each cursor as one event at offset 0 at its position.

  function SnapshotPayload(cs: seq<CursorEntry>): seq<Byte> {
    if cs == [] then []
    else
      var c := cs[0].cursor;
      [SeatOf(c.cid), 1] + ShortToBytes(0) + ShortToBytes(c.x) + ShortToBytes(c.y) + SnapshotPayload(cs[1..])
  }

  /** Each cursor with its queue replaced by one sample at its current position. */
  function Pinned(cs: seq<CursorEntry>): (r: seq<CursorEntry>)
    ensures |r| == |cs|
  {
    seq(|cs|, k requires 0 <= k < |cs| =>
      CursorEntry(cs[k].uuid, cs[k].cursor.(queue := [CursorEvent(0, cs[k].cursor.x, cs[k].cursor.y)])))
  }

  /** The snapshot a newcomer receives is exactly the flush payload of the
      table with every cursor pinned at its current position, so the client
      decoder reads it like any other update. */
  lemma {:induction false} SnapshotIsFlush(cs: seq<CursorEntry>)
    ensures SnapshotPayload(cs) == FlushPayload(Pinned(cs))
  {
    if cs != [] {
      assert Pinned(cs)[1..] == Pinned(cs[1..]);
      SnapshotIsFlush(cs[1..]);
      var c := cs[0].cursor;
      var e := CursorEvent(0, c.x, c.y);
      assert EventsBytes([e]) == EventBytes(e) + EventsBytes([e][1..]);
      assert [e][1..] == [];
    }
  }
}
