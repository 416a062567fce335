/**
 * End to end: what a page sends, what the server relays, and what the
 * other pages of the room decode from it. A relayed note keeps its key,
 * its velocity or flag and its 32-bit timestamp, a batch decodes to its
 * notes in order, a cursor flush decodes to exactly the queued samples,
 * and the settings a page shows follow the room's.
 */
module Wire {
  import opened Wrappers
  import opened Codec
  import opened Protocol
  import opened State
  import opened ClientWorker
  import Piano
  import Cursors
  import Rooms
  import ClientInput
  import ClientSocket

  // ---------------------------------------------------------------------
  // Notes.

  /** A note a page plays: a press with its velocity, or a release with its "all playings" flag. */
  datatype Played =
    | Pressed(uid: int, velocity: int, ts: int)
    | Released(uid: int, allPlayings: bool, ts: int)

  /** The frame the page queues for a note. */
  function FrameOf(pl: Played): seq<Byte> {
    match pl
    case Pressed(u, v, t) => ClientInput.PressBytes(u, v, t)
    case Released(u, a, t) => ClientInput.ReleaseBytes(u, a, t)
  }

  /** The frames of several notes, in playing order. */
  function Frames(pls: seq<Played>): (q: seq<seq<Byte>>)
    ensures |q| == |pls|
  {
    if pls == [] then [] else Frames(pls[..|pls| - 1]) + [FrameOf(pls[|pls| - 1])]
  }

  /** The event a listening page hands its scheduler for a note played from `seat`. */
  function Heard(pl: Played, seat: Byte): NoteEvent {
    match pl
    case Pressed(u, v, t) => PressEvent(ToInt32(t), Some(ToUint8(u)), seat, Some(ToUint8(v)))
    case Released(u, a, t) => ReleaseEvent(ToInt32(t), Some(ToUint8(u)), a, seat)
  }

  function HeardAll(pls: seq<Played>, seat: Byte): (es: seq<NoteEvent>)
    ensures |es| == |pls|
  {
    if pls == [] then [] else HeardAll(pls[..|pls| - 1], seat) + [Heard(pls[|pls| - 1], seat)]
  }

  /** A value already in the signed 32-bit range is its own ToInt32. */
  lemma ToInt32Fixed(n: int)
    requires -TWO31 <= n < TWO31
    ensures ToInt32(n) == n
  {
    if n < 0 {
      assert n % TWO32 == n + TWO32;
    } else {
      assert n % TWO32 == n;
    }
  }

  /** The server's relay of a single note, as a page decodes it. */
  function Relayed(pl: Played, seat: Byte): Option<NoteEvent> {
    var f := FrameOf(pl);
    if pl.Pressed? then ClientSocket.PressEventOf(Piano.PressFrame(seat, f[1..]).bytes[1..])
    else ClientSocket.ReleaseEventOf(Piano.ReleaseFrame(seat, f[1..]).bytes[1..])
  }

  /** A relayed press decodes to the press as played from the sender's seat. */
  lemma PressRelayed(u: int, v: int, ts: int, seat: Byte)
    ensures Relayed(Pressed(u, v, ts), seat) == Some(Heard(Pressed(u, v, ts), seat))
  {
    var f := FrameOf(Pressed(u, v, ts));
    var t := ToInt32(ts);
    ToInt32Fixed(t);
    IntRoundTrip(t);
    var ints := IntToBytes(t);
    ClientInput.PressBytesParsed(u, v, ts);
    var b := Piano.PressFrame(seat, f[1..]).bytes;
    assert b == [PRESS_NOTE, seat, ToUint8(u), ToUint8(v)] + ints;
    var q := b[1..];
    assert q == [seat, ToUint8(u), ToUint8(v)] + ints;
    assert Sub(q, 3, 7) == q[3..7] == ints;
  }

  /** A relayed release decodes to the release as played from the sender's seat. */
  lemma ReleaseRelayed(u: int, a: bool, ts: int, seat: Byte)
    ensures Relayed(Released(u, a, ts), seat) == Some(Heard(Released(u, a, ts), seat))
  {
    var f := FrameOf(Released(u, a, ts));
    var t := ToInt32(ts);
    ToInt32Fixed(t);
    IntRoundTrip(t);
    var ints := IntToBytes(t);
    ClientInput.ReleaseBytesParsed(u, a, ts);
    var flag: Byte := if a then 1 else 0;
    assert Piano.ReleaseFlag(PAt(f[1..], 1)) == flag;
    var b := Piano.ReleaseFrame(seat, f[1..]).bytes;
    assert b == [RELEASE_NOTE] + ([seat, ToUint8(u), flag] + ints);
    var q := b[1..];
    assert q == [seat, ToUint8(u), flag] + ints;
    assert Sub(q, 3, 7) == q[3..7] == ints;
  }

  /**
   * A single note travels intact: the server reads the key, the velocity
   * or flag and the timestamp the page wrote, accepts it by the range and
   * clock checks on exactly those values, and the page at the other end
   * decodes the relayed frame to the note as played from the sender's seat.
   */
  lemma SingleNoteRelayed(pl: Played, seat: Byte, uptime: int)
    ensures var f := FrameOf(pl);
      |f| == 7 && f[0] == (if pl.Pressed? then PRESS_NOTE else RELEASE_NOTE)
      && Relayed(pl, seat) == Some(Heard(pl, seat))
      && (pl.Pressed? ==>
            (Piano.PressInRange(f[1..], uptime) <==>
               ToUint8(pl.uid) <= 88 && ToUint8(pl.velocity) <= 127 && Piano.InClockWindow(uptime, ToInt32(pl.ts))))
      && (pl.Released? ==>
            (Piano.Release(seat, f[1..], uptime).Some? <==>
               ToUint8(pl.uid) <= 88 && Piano.InClockWindow(uptime, ToInt32(pl.ts))))
  {
    match pl
    case Pressed(u, v, ts) =>
      ClientInput.PressBytesParsed(u, v, ts);
      PressRelayed(u, v, ts, seat);
    case Released(u, a, ts) =>
      ClientInput.ReleaseBytesParsed(u, a, ts);
      ReleaseRelayed(u, a, ts, seat);
  }

  /** One queued note at the head of a batch payload is read back as its event. */
  lemma BatchHead(pl: Played, rest: seq<Byte>, seat: Byte)
    ensures ClientSocket.BatchFrom(FrameOf(pl) + rest, seat) == [Heard(pl, seat)] + ClientSocket.BatchFrom(rest, seat)
  {
    var f := FrameOf(pl);
    var q := f + rest;
    var ints := IntToBytes(pl.ts);
    IntRoundTrip(pl.ts);
    if pl.Pressed? {
      assert f == [PRESS_NOTE, ToUint8(pl.uid), ToUint8(pl.velocity)] + ints;
    } else {
      assert f == [RELEASE_NOTE, ToUint8(pl.uid), if pl.allPlayings then 1 else 0] + ints;
    }
    assert q[0] == f[0] && q[1] == f[1] && q[2] == f[2];
    assert Sub(q, 3, 7) == ints;
    assert Drop(q, 7) == rest;
  }

  /** The queued frames of several notes, followed by anything, read back as their events in order. */
  lemma {:induction false} BatchFrames(pls: seq<Played>, rest: seq<Byte>, seat: Byte)
    ensures ClientSocket.BatchFrom(ClientInput.Flatten(Frames(pls)) + rest, seat)
         == HeardAll(pls, seat) + ClientSocket.BatchFrom(rest, seat)
    decreases |pls|
  {
    if pls != [] {
      var init, last := pls[..|pls| - 1], pls[|pls| - 1];
      var q := Frames(pls);
      assert q[..|q| - 1] == Frames(init) && q[|q| - 1] == FrameOf(last);
      var head := ClientInput.Flatten(Frames(init));
      assert ClientInput.Flatten(q) == head + FrameOf(last);
      Regroup(head, FrameOf(last), rest);
      assert ClientInput.Flatten(q) + rest == head + (FrameOf(last) + rest);
      BatchFrames(init, FrameOf(last) + rest, seat);
      assert ClientSocket.BatchFrom(ClientInput.Flatten(q) + rest, seat)
          == HeardAll(init, seat) + ClientSocket.BatchFrom(FrameOf(last) + rest, seat);
      BatchHead(last, rest, seat);
      assert HeardAll(pls, seat) == HeardAll(init, seat) + [Heard(last, seat)];
      Regroup(HeardAll(init, seat), [Heard(last, seat)], ClientSocket.BatchFrom(rest, seat));
    } else {
      assert ClientInput.Flatten(Frames(pls)) + rest == rest;
      assert HeardAll(pls, seat) + ClientSocket.BatchFrom(rest, seat) == ClientSocket.BatchFrom(rest, seat);
    }
  }

  /**
   * Two or more notes leave the page as one BATCH_NOTES frame; the server
   * relays its payload after the sender's seat, and a page decodes that
   * relay to the notes in the order they were played. A single note leaves
   * as its own frame.
   */
  lemma BatchRelayed(pls: seq<Played>, seat: Byte)
    ensures |pls| == 1 ==> ClientInput.Outgoing(Frames(pls)) == [FrameOf(pls[0])]
    ensures |pls| >= 2 ==>
      var sent := ClientInput.Outgoing(Frames(pls));
      |sent| == 1 && sent[0][0] == BATCH_NOTES
      && var relayed := [BATCH_NOTES, seat] + sent[0][1..];
         ClientSocket.BatchFrom(relayed[2..], relayed[1]) == HeardAll(pls, seat)
  {
    if |pls| == 1 {
      assert Frames(pls) == Frames([]) + [FrameOf(pls[0])];
    }
    if |pls| >= 2 {
      var body := ClientInput.Flatten(Frames(pls));
      var relayed := [BATCH_NOTES, seat] + ([BATCH_NOTES] + body)[1..];
      assert relayed[2..] == body + [];
      BatchFrames(pls, [], seat);
    }
  }

  // ---------------------------------------------------------------------
  // Cursors.

  /** A cursor's queued samples as the timers a page sets for seat `id`. */
  function EventMoves(es: seq<CursorEvent>, id: int): (ms: seq<ClientSocket.CursorMove>)
    ensures |ms| == |es|
  {
    if es == [] then []
    else
      var e := es[|es| - 1];
      EventMoves(es[..|es| - 1], id) + [ClientSocket.CursorMove(e.t, id, e.x, e.y)]
  }

  /** A sample whose fields fit the two bytes each is given. */
  predicate Fits(e: CursorEvent) {
    0 <= e.t < TWO16 && 0 <= e.x < TWO16 && 0 <= e.y < TWO16
  }

  /** A cursor whose flushed group a page reads back: fewer than 256
      samples that fit, from a seat the page knows and draws a cursor for. */
  ghost predicate Decodable(c: Cursor, cache: map<int, ClientSocket.Player>, ps: seq<ClientSocket.Player>,
                            els: seq<ClientSocket.CursorEl>)
  {
    c.queue != [] ==>
      c.cid.Some? && 0 <= c.cid.value < 256 && |c.queue| < 256
      && (forall k :: 0 <= k < |c.queue| ==> Fits(c.queue[k]))
      && ClientSocket.Lookup(cache, ps, c.cid.value).Some? && ClientSocket.HasCursor(els, c.cid.value)
  }

  /** The timers of every cursor with queued samples, in table order. */
  function FlushedMoves(cs: seq<CursorEntry>): seq<ClientSocket.CursorMove> {
    if cs == [] then []
    else
      var c := cs[0].cursor;
      (if c.queue != [] && c.cid.Some? then EventMoves(c.queue, c.cid.value) else []) + FlushedMoves(cs[1..])
  }

  /** Event j of a group's payload occupies bytes 6j .. 6j + 5. */
  lemma {:induction false} EventsBytesAt(es: seq<CursorEvent>, j: nat)
    requires j < |es|
    ensures Cursors.EventsBytes(es)[6 * j .. 6 * j + 6] == Cursors.EventBytes(es[j])
    decreases j
  {
    var all := Cursors.EventsBytes(es);
    assert all == Cursors.EventBytes(es[0]) + Cursors.EventsBytes(es[1..]);
    if j > 0 {
      EventsBytesAt(es[1..], j - 1);
      assert all[6 * j .. 6 * j + 6] == Cursors.EventsBytes(es[1..])[6 * (j - 1) .. 6 * (j - 1) + 6];
    }
  }

  /** Reading a window of bytes at offset x of b inside a + b. */
  lemma SubAfter(a: seq<Byte>, b: seq<Byte>, x: nat, y: nat, ax: nat, ay: nat)
    requires ax == |a| + x && ay == |a| + y
    ensures Sub(a + b, ax, ay) == Sub(b, x, y)
  {
    var lo := if x < |b| then x else |b|;
    var hi := if y < |b| then y else |b|;
    if lo <= hi {
      assert (a + b)[|a| + lo .. |a| + hi] == b[lo..hi];
    }
  }

  /** One cursor event of b, read at the shifted offset inside a + b. */
  lemma MoveAtAfter(a: seq<Byte>, b: seq<Byte>, x: nat, ax: nat, id: int)
    requires ax == |a| + x
    ensures ClientSocket.MoveAt(a + b, ax, id) == ClientSocket.MoveAt(b, x, id)
  {
    SubAfter(a, b, x, x + 2, ax, ax + 2);
    SubAfter(a, b, x + 2, x + 4, ax + 2, ax + 4);
    SubAfter(a, b, x + 4, x + 6, ax + 4, ax + 6);
  }

  /** A group's events of b, read at the shifted offset inside a + b. */
  lemma {:induction false} MovesAfter(a: seq<Byte>, b: seq<Byte>, start: nat, at: nat, id: int, n: nat)
    requires at == |a| + start
    ensures ClientSocket.Moves(a + b, at, id, n) == ClientSocket.Moves(b, start, id, n)
    decreases n
  {
    if n > 0 {
      MovesAfter(a, b, start, at, id, n - 1);
      MoveAtAfter(a, b, ClientSocket.EventOffset(start, n - 1), ClientSocket.EventOffset(at, n - 1), id);
    }
  }

  /** A window of w found at offset x of q: any part of it is read back by Sub. */
  lemma WindowIn(q: seq<Byte>, w: seq<Byte>, x: nat, lo: nat, hi: nat)
    requires x + |w| <= |q| && q[x .. x + |w|] == w && lo <= hi <= |w|
    ensures Sub(q, x + lo, x + hi) == w[lo..hi]
  {
    forall k | 0 <= k < hi - lo
      ensures q[x + lo .. x + hi][k] == w[lo..hi][k]
    {
      assert q[x + lo .. x + hi][k] == q[x + lo + k];
      assert w[lo..hi][k] == w[lo + k] == q[x .. x + |w|][lo + k];
    }
  }

  /** Sample j's six bytes sit at its event offset in the group, whatever follows the group. */
  lemma EventAt(c: Cursor, rest: seq<Byte>, j: nat)
    requires j < |c.queue|
    ensures ClientSocket.EventOffset(2, j) + 6 <= |Cursors.GroupBytes(c) + rest|
    ensures (Cursors.GroupBytes(c) + rest)[ClientSocket.EventOffset(2, j) .. ClientSocket.EventOffset(2, j) + 6]
         == Cursors.EventBytes(c.queue[j])
  {
    var evs := Cursors.EventsBytes(c.queue);
    var p := Cursors.GroupBytes(c) + rest;
    var at := ClientSocket.EventOffset(2, j);
    EventsBytesAt(c.queue, j);
    var found := p[at .. at + 6];
    var want := evs[6 * j .. 6 * j + 6];
    forall k | 0 <= k < 6
      ensures found[k] == want[k]
    {
      assert found[k] == p[at + k] == evs[6 * j + k];
    }
    assert found == want;
  }

  /** Sample j of a cursor's group reads back as that sample, whatever follows the group. */
  lemma MoveRead(c: Cursor, rest: seq<Byte>, id: int, j: nat)
    requires j < |c.queue| && Fits(c.queue[j])
    ensures ClientSocket.MoveAt(Cursors.GroupBytes(c) + rest, ClientSocket.EventOffset(2, j), id)
         == ClientSocket.CursorMove(c.queue[j].t, id, c.queue[j].x, c.queue[j].y)
  {
    var e := c.queue[j];
    var eb := Cursors.EventBytes(e);
    var p := Cursors.GroupBytes(c) + rest;
    var at := ClientSocket.EventOffset(2, j);
    EventAt(c, rest, j);
    WindowIn(p, eb, at, 0, 2);
    WindowIn(p, eb, at, 2, 4);
    WindowIn(p, eb, at, 4, 6);
    assert eb[0..2] == ShortToBytes(e.t) && eb[2..4] == ShortToBytes(e.x) && eb[4..6] == ShortToBytes(e.y);
    ShortRoundTrip(e.t);
    ShortRoundTrip(e.x);
    ShortRoundTrip(e.y);
  }

  /** The timers of a group's first n samples are those samples, whatever follows the group. */
  lemma {:induction false} GroupMovesRead(c: Cursor, rest: seq<Byte>, id: int, n: nat)
    requires n <= |c.queue| && forall k :: 0 <= k < |c.queue| ==> Fits(c.queue[k])
    ensures ClientSocket.Moves(Cursors.GroupBytes(c) + rest, 2, id, n) == EventMoves(c.queue[..n], id)
    decreases n
  {
    if n > 0 {
      var es := c.queue[..n];
      assert es[..n - 1] == c.queue[..n - 1];
      GroupMovesRead(c, rest, id, n - 1);
      MoveRead(c, rest, id, n - 1);
      assert EventMoves(es, id) == EventMoves(es[..n - 1], id) + [ClientSocket.CursorMove(es[n - 1].t, id, es[n - 1].x, es[n - 1].y)];
    }
  }

  /** A decodable cursor's samples, read at their place after any bytes `pre`. */
  lemma GroupMovesAt(pre: seq<Byte>, c: Cursor, rest: seq<Byte>, cache: map<int, ClientSocket.Player>,
                     ps: seq<ClientSocket.Player>, els: seq<ClientSocket.CursorEl>)
    requires c.queue != [] && Decodable(c, cache, ps, els)
    ensures ClientSocket.Moves(pre + (Cursors.GroupBytes(c) + rest), |pre| + 2, c.cid.value, |c.queue|)
         == EventMoves(c.queue, c.cid.value)
  {
    var n := |c.queue|;
    MovesAfter(pre, Cursors.GroupBytes(c) + rest, 2, |pre| + 2, c.cid.value, n);
    GroupMovesRead(c, rest, c.cid.value, n);
    assert c.queue[..n] == c.queue;
  }

  /** A decodable cursor's group opens with its seat and its sample count. */
  lemma GroupHeadAt(pre: seq<Byte>, c: Cursor, rest: seq<Byte>, cache: map<int, ClientSocket.Player>,
                    ps: seq<ClientSocket.Player>, els: seq<ClientSocket.CursorEl>)
    requires c.queue != [] && Decodable(c, cache, ps, els)
    ensures |pre| + 1 < |pre + (Cursors.GroupBytes(c) + rest)|
    ensures (pre + (Cursors.GroupBytes(c) + rest))[|pre|] == c.cid.value
    ensures (pre + (Cursors.GroupBytes(c) + rest))[|pre| + 1] == |c.queue|
    ensures |pre + Cursors.GroupBytes(c)| == ClientSocket.NextGroup(|pre|, |c.queue|)
  {
    var g := Cursors.GroupBytes(c);
    assert g[0] == c.cid.value && g[1] == |c.queue|;
  }

  /** One decodable cursor's group after any bytes `pre`: its samples' timers, then whatever follows the group. */
  lemma GroupReadAt(pre: seq<Byte>, c: Cursor, rest: seq<Byte>, cache: map<int, ClientSocket.Player>,
                    ps: seq<ClientSocket.Player>, els: seq<ClientSocket.CursorEl>)
    requires c.queue != [] && Decodable(c, cache, ps, els)
    ensures ClientSocket.CursorFrame(pre + (Cursors.GroupBytes(c) + rest), |pre|, cache, ps, els)
         == EventMoves(c.queue, c.cid.value)
            + ClientSocket.CursorFrame((pre + Cursors.GroupBytes(c)) + rest, |pre + Cursors.GroupBytes(c)|, cache, ps, els)
  {
    var p := pre + (Cursors.GroupBytes(c) + rest);
    Regroup(pre, Cursors.GroupBytes(c), rest);
    GroupHeadAt(pre, c, rest, cache, ps, els);
    GroupMovesAt(pre, c, rest, cache, ps, els);
    ClientSocket.GroupStep(p, |pre|, cache, ps, els, EventMoves(c.queue, c.cid.value));
  }

  /** After any bytes `pre`, a flush payload reads back as the flushed timers. */
  lemma {:induction false} FlushDecodedAt(pre: seq<Byte>, cs: seq<CursorEntry>, cache: map<int, ClientSocket.Player>,
                                          ps: seq<ClientSocket.Player>, els: seq<ClientSocket.CursorEl>)
    requires forall k :: 0 <= k < |cs| ==> Decodable(cs[k].cursor, cache, ps, els)
    ensures ClientSocket.CursorFrame(pre + Cursors.FlushPayload(cs), |pre|, cache, ps, els) == FlushedMoves(cs)
    decreases |cs|
  {
    if cs == [] {
      assert pre + Cursors.FlushPayload(cs) == pre;
    } else {
      var c := cs[0].cursor;
      var rest := Cursors.FlushPayload(cs[1..]);
      assert Decodable(c, cache, ps, els);
      assert forall k :: 0 <= k < |cs[1..]| ==> cs[1..][k] == cs[k + 1];
      if c.queue == [] {
        assert Cursors.FlushPayload(cs) == rest;
        FlushDecodedAt(pre, cs[1..], cache, ps, els);
      } else {
        var g := Cursors.GroupBytes(c);
        assert Cursors.FlushPayload(cs) == g + rest;
        FlushDecodedAt(pre + g, cs[1..], cache, ps, els);
        GroupReadAt(pre, c, rest, cache, ps, els);
      }
    }
  }

  /**
   * A cursor flush decodes to exactly the queued samples: when every cursor
   * with samples is decodable, a page reading the CURSOR_UPDATE payload sets
   * one timer per sample, cursor by cursor in table order, each with the
   * sample's delay and position and the cursor's seat.
   */
  lemma FlushDecoded(cs: seq<CursorEntry>, cache: map<int, ClientSocket.Player>,
                     ps: seq<ClientSocket.Player>, els: seq<ClientSocket.CursorEl>)
    requires forall k :: 0 <= k < |cs| ==> Decodable(cs[k].cursor, cache, ps, els)
    ensures ClientSocket.CursorFrame(Cursors.FlushPayload(cs), 0, cache, ps, els) == FlushedMoves(cs)
  {
    FlushDecodedAt([], cs, cache, ps, els);
    assert [] + Cursors.FlushPayload(cs) == Cursors.FlushPayload(cs);
  }

  // ---------------------------------------------------------------------
  // Settings.

  /** The four settings bytes a joiner receives make its view the room's, whatever it showed before. */
  lemma JoinerSettings(s: ClientSocket.ClientSettings, r: Room)
    ensures ClientSocket.ClientApplied(s, Rooms.SettingsBytes(r)) == ClientSocket.View(r)
  {
    var shown := r.(hidden := s.hidden, chatFilter := s.chatFilter, disableChat := s.disableChat, disablePiano := s.disablePiano);
    assert ClientSocket.View(shown) == s;
    ClientSocket.SettingsAgree(shown, Rooms.SettingsBytes(r));
    Rooms.SettingsRoundTrip(r, shown);
  }

  /**
   * A saved settings dialog reaches every page: the server applies the
   * dialog's bytes to the room and echoes them, and a page that showed the
   * room's settings then shows the four switches as the owner left them,
   * which are the room's new settings.
   */
  lemma DialogReachesPages(r: Room, hidden: bool, chatFilter: bool, disableChat: bool, disablePiano: bool)
    ensures var p := ClientInput.SettingsFrame(ClientInput.Dialog(hidden, chatFilter, disableChat, disablePiano))[1..];
      ClientSocket.ClientApplied(ClientSocket.View(r), p) == ClientSocket.View(Rooms.SettingsApplied(r, p))
      == ClientSocket.ClientSettings(hidden, chatFilter, disableChat, disablePiano)
  {
    var p := ClientInput.SettingsFrame(ClientInput.Dialog(hidden, chatFilter, disableChat, disablePiano))[1..];
    ClientSocket.SettingsAgree(r, p);
    ClientInput.SettingsFrameApplied(r, hidden, chatFilter, disableChat, disablePiano);
  }
}
