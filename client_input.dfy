/**
 * Note input of the browser client (client/src/input.js): transposition of
 * a key, the transpose setting moved by the arrow keys, the queue that
 * batches presses and releases, and the frames the client sends for notes,
 * cursor moves and room settings.
 *
 * Times are whole milliseconds. `send` hands a frame to the socket when it
 * is open; the frames handed over are logged in `sent`.
 */
module ClientInput {
  import opened Wrappers
  import opened Codec
  import opened Text
  import opened Protocol
  import opened State
  import opened ClientPiano
  import Rooms
  import Cursors
  import Piano

  // ---------------------------------------------------------------------
  // Transposition.

  /** JavaScript's `%` for a positive divisor: the remainder takes the sign of the dividend. */
  function JsRem(a: int, n: int): (r: int)
    requires n > 0
    ensures -n < r < n
  {
    if a >= 0 then a % n else -((-a) % n)
  }

  /** `((x % n) + n) % n` is the non-negative residue of x, which Dafny's `%` computes. */
  lemma WrapIndex(x: int, n: int)
    requires n > 0
    ensures JsRem(JsRem(x, n) + n, n) == x % n
  {
    var r := JsRem(x, n);
    if x >= 0 {
      DivModUnique(r + n, n, 1, r);
    } else {
      var m, q := (-x) % n, (-x) / n;
      assert -x == n * q + m;
      if m == 0 {
        DivModUnique(x, n, -q, 0);
        DivModUnique(n, n, 1, 0);
      } else {
        DivModUnique(x, n, -q - 1, n - m);
        DivModUnique(n - m, n, 0, n - m);
      }
    }
  }

  /** The name index `((i + transpose) % 12 + 12) % 12` of the transposed note. */
  function WrapNote(x: int): (j: int)
    ensures 0 <= j < 12 && j == x % 12
  {
    WrapIndex(x, 12);
    JsRem(JsRem(x, 12) + 12, 12)
  }

  /** `keys.find((k) => k.note === note)`. */
  function FindNote(keys: seq<Key>, note: string): (r: Option<Key>)
    ensures r.Some? ==> r.value in keys && r.value.note == note
  {
    if keys == [] then None
    else if keys[0].note == note then Some(keys[0])
    else FindNote(keys[1..], note)
  }

  /** `find` returns the first key with the note. */
  lemma {:induction false} FindNoteAt(keys: seq<Key>, note: string, v: nat)
    requires v < |keys| && keys[v].note == note
    requires forall w :: 0 <= w < v ==> keys[w].note != note
    ensures FindNote(keys, note) == Some(keys[v])
    decreases v
  {
    if v > 0 {
      assert keys[0].note != note;
      FindNoteAt(keys[1..], note, v - 1);
    }
  }

  /** `find` returns nothing when no key has the note. */
  lemma {:induction false} FindNoteNone(keys: seq<Key>, note: string)
    requires forall w :: 0 <= w < |keys| ==> keys[w].note != note
    ensures FindNote(keys, note) == None
    decreases |keys|
  {
    if keys != [] {
      assert keys[0].note != note;
      FindNoteNone(keys[1..], note);
    }
  }

  /** The note text `transpose` semitones away from name + octave: the name
      index wraps around the twelve names and the octave shifts by the
      floored quotient; none when the name is not a note name. */
  function TransposedText(name: string, octave: int, transpose: int): Option<string> {
    var i := IndexOf(NOTES, name);
    if i == -1 then None
    else Some(NoteText(NOTES[WrapNote(i + transpose)], octave + (i + transpose) / 12))
  }

  /** `applyTranspose`: the key whose note text is the transposed one. */
  function ApplyTranspose(keys: seq<Key>, key: Key, transpose: int): Option<Key> {
    match TransposedText(key.baseNote, key.octave, transpose)
    case None => None
    case Some(text) => FindNote(keys, text)
  }

  /** `applyTranspose` finds the key with the transposed note text. */
  lemma TransposeLooksUp(keys: seq<Key>, key: Key, transpose: int, text: string)
    requires TransposedText(key.baseNote, key.octave, transpose) == Some(text)
    ensures ApplyTranspose(keys, key, transpose) == FindNote(keys, text)
  {
  }

  /** A key whose name is not in NOTES has no transposition. */
  lemma TransposeUnknownName(keys: seq<Key>, key: Key, transpose: int)
    requires key.baseNote !in NOTES
    ensures ApplyTranspose(keys, key, transpose).None?
  {
  }

  /** A table laid out like the client's keyboard: key v carries note name
      NOTES[(v + 9) % 12] in octave (v + 9) / 12 - 1, starting from A0. */
  ghost predicate PianoLayout(keys: seq<Key>) {
    |keys| == 88
    && forall v :: 0 <= v < 88 ==>
         keys[v].baseNote == NOTES[(v + 9) % 12] && keys[v].octave == (v + 9) / 12 - 1
         && keys[v].note == NoteText(keys[v].baseNote, keys[v].octave)
  }

  /** The table `addPianoKeys` builds is laid out that way. */
  lemma StandardLayout()
    ensures PianoLayout(KeyRun(Layout()))
  {
    forall v | 0 <= v < 88
      ensures |KeyRun(Layout())| == 88
      ensures var k := KeyRun(Layout())[v];
        k.baseNote == NOTES[(v + 9) % 12] && k.octave == (v + 9) / 12 - 1 && k.note == NoteText(k.baseNote, k.octave)
    {
      StandardKeys(v);
    }
    StandardKeys(0);
  }

  /** Equal note texts of two note names mean equal name indices. */
  lemma SameNoteText(i: nat, o1: int, j: nat, o2: int)
    requires i < 12 && j < 12 && NoteText(NOTES[i], o1) == NoteText(NOTES[j], o2)
    ensures i == j && o1 == o2
  {
    NotesIndex(i);
    NotesIndex(j);
    NoteTextInjective(NOTES[i], o1, NOTES[j], o2);
  }

  /** In such a table key v has note text (j, octave) exactly when it sits at
      position 12 * (octave + 1) + j - 9. */
  lemma NoteAtPosition(keys: seq<Key>, v: nat, j: int, octave: int)
    requires PianoLayout(keys) && v < 88 && 0 <= j < 12
    ensures keys[v].note == NoteText(NOTES[j], octave) <==> v + 9 == 12 * (octave + 1) + j
  {
    var i, o := (v + 9) % 12, (v + 9) / 12 - 1;
    assert keys[v].note == NoteText(NOTES[i], o);
    if keys[v].note == NoteText(NOTES[j], octave) {
      SameNoteText(i, o, j, octave);
    }
    if v + 9 == 12 * (octave + 1) + j {
      DivModUnique(v + 9, 12, octave + 1, j);
    }
  }

  /** Looking up note text (j, octave) finds the key at position
      12 * (octave + 1) + j - 9, or nothing off the keyboard. */
  lemma FindInLayout(keys: seq<Key>, j: int, octave: int)
    requires PianoLayout(keys) && 0 <= j < 12
    ensures var v := 12 * (octave + 1) + j - 9;
      (0 <= v < 88 ==> FindNote(keys, NoteText(NOTES[j], octave)) == Some(keys[v]))
      && (v < 0 || 88 <= v ==> FindNote(keys, NoteText(NOTES[j], octave)) == None)
  {
    var v := 12 * (octave + 1) + j - 9;
    forall w | 0 <= w < 88
      ensures keys[w].note == NoteText(NOTES[j], octave) <==> w == v
    {
      NoteAtPosition(keys, w, j, octave);
    }
    if 0 <= v < 88 {
      FindNoteAt(keys, NoteText(NOTES[j], octave), v);
    } else {
      FindNoteNone(keys, NoteText(NOTES[j], octave));
    }
  }

  /** Key u of a keyboard table: its name index and octave give back its position. */
  lemma LayoutKey(keys: seq<Key>, u: nat)
    requires PianoLayout(keys) && u < 88
    ensures IndexOf(NOTES, keys[u].baseNote) == (u + 9) % 12
    ensures 12 * (keys[u].octave + 1) + (u + 9) % 12 == u + 9
  {
    NotesIndex((u + 9) % 12);
  }

  /** Transposing key u by t semitones looks up the note text whose position
      is u + t: the name index j and octave o of the result satisfy
      12 * o + j == 12 * octave + i + t. */
  lemma TransposeTarget(keys: seq<Key>, u: nat, t: int) returns (j: int, octave: int)
    requires PianoLayout(keys) && u < 88
    ensures 0 <= j < 12 && 12 * (octave + 1) + j - 9 == u + t
    ensures TransposedText(keys[u].baseNote, keys[u].octave, t) == Some(NoteText(NOTES[j], octave))
  {
    LayoutKey(keys, u);
    var x := (u + 9) % 12 + t;
    j := WrapNote(x);
    octave := keys[u].octave + x / 12;
    assert x == 12 * (x / 12) + x % 12;
  }

  /** On a keyboard table, transposing key u by t semitones gives key u + t,
      or nothing when that falls off the keyboard. */
  lemma TransposeInLayout(keys: seq<Key>, u: nat, t: int)
    requires PianoLayout(keys) && u < 88
    ensures ApplyTranspose(keys, keys[u], t) == if 0 <= u + t < 88 then Some(keys[u + t]) else None
  {
    var j, octave := TransposeTarget(keys, u, t);
    TransposeLooksUp(keys, keys[u], t, NoteText(NOTES[j], octave));
    FindInLayout(keys, j, octave);
  }

  /** The same on the table the client builds. */
  lemma TransposeStandard(u: nat, t: int)
    requires u < 88
    ensures |KeyRun(Layout())| == 88
    ensures var keys := KeyRun(Layout());
      ApplyTranspose(keys, keys[u], t) == if 0 <= u + t < 88 then Some(keys[u + t]) else None
  {
    StandardLayout();
    TransposeInLayout(KeyRun(Layout()), u, t);
  }

  // ---------------------------------------------------------------------
  // Frames the client sends.

  /** The press frame `[5, uid, velocity, ts x4]`; the velocity is already scaled to 0..127. */
  function PressBytes(uid: int, velocity: int, ts: int): seq<Byte> {
    [PRESS_NOTE, ToUint8(uid), ToUint8(velocity)] + IntToBytes(ts)
  }

  /** The release frame `[6, uid, 0 | 1, ts x4]`. */
  function ReleaseBytes(uid: int, allPlayings: bool, ts: int): seq<Byte> {
    [RELEASE_NOTE, ToUint8(uid), if allPlayings then 1 else 0] + IntToBytes(ts)
  }

  /** What the server's single-note handlers read from a press frame: the
      note and velocity bytes and the 32-bit timestamp. */
  lemma PressBytesParsed(uid: int, velocity: int, ts: int)
    ensures var f := PressBytes(uid, velocity, ts);
      |f| == 7 && f[0] == PRESS_NOTE
      && PAt(f[1..], 0) == Some(ToUint8(uid)) && PAt(f[1..], 1) == Some(ToUint8(velocity))
      && Piano.NoteTs(f[1..]) == ToInt32(ts)
  {
    var f := PressBytes(uid, velocity, ts);
    var ints := IntToBytes(ts);
    assert f == [PRESS_NOTE, ToUint8(uid), ToUint8(velocity)] + ints;
    assert |f| == 7;
    var p := f[1..];
    assert p[0] == f[1] && p[1] == f[2];
    assert f[3..] == ints;
    assert p[2..6] == f[3..];
    IntRoundTrip(ts);
  }

  /** The same for a release frame, whose third byte is the flag. */
  lemma ReleaseBytesParsed(uid: int, allPlayings: bool, ts: int)
    ensures var f := ReleaseBytes(uid, allPlayings, ts);
      |f| == 7 && f[0] == RELEASE_NOTE
      && PAt(f[1..], 0) == Some(ToUint8(uid)) && (PAt(f[1..], 1) == Some(1) <==> allPlayings)
      && Piano.NoteTs(f[1..]) == ToInt32(ts)
  {
    var f := ReleaseBytes(uid, allPlayings, ts);
    var ints := IntToBytes(ts);
    assert f == [RELEASE_NOTE, ToUint8(uid), if allPlayings then 1 else 0] + ints;
    assert |f| == 7;
    var p := f[1..];
    assert p[0] == f[1] && p[1] == f[2];
    assert f[3..] == ints;
    assert p[2..6] == f[3..];
    IntRoundTrip(ts);
  }

  /** The cursor packet `[3, x x2, y x2]`, coordinates in hundredths of a percent. */
  function CursorPacket(x: int, y: int): seq<Byte> {
    [SET_CURSOR_POS] + ShortToBytes(x) + ShortToBytes(y)
  }

  /** The server reads back the coordinates of a cursor packet and accepts
      it exactly when both lie within 0..100%. */
  lemma CursorPacketParsed(x: int, y: int)
    requires 0 <= x < TWO16 && 0 <= y < TWO16
    ensures var p := CursorPacket(x, y)[1..];
      Cursors.PayloadX(p) == x && Cursors.PayloadY(p) == y
      && (Cursors.CursorPayloadOk(p) <==> x <= Cursors.FULL_SCALE && y <= Cursors.FULL_SCALE)
  {
    var p := CursorPacket(x, y)[1..];
    assert Sub(p, 0, 2) == ShortToBytes(x);
    assert Sub(p, 2, 4) == ShortToBytes(y);
    ShortRoundTrip(x);
    ShortRoundTrip(y);
  }

  /** A settings switch of the dialog: its numeric name and whether it is on. */
  datatype Switch = Switch(name: int, checked: bool)

  /** The dialog's switches in page order: hidden, chat filter, chat disabled, piano disabled. */
  function Dialog(hidden: bool, chatFilter: bool, disableChat: bool, disablePiano: bool): seq<Switch> {
    [Switch(1, hidden), Switch(2, chatFilter), Switch(3, disableChat), Switch(4, disablePiano)]
  }

  /** `(name << 1) | (checked ? 1 : 0)` as stored in a byte; for the dialog's
      names 1..4 the low bit is free, so the bit-or is an addition. */
  function SwitchByte(s: Switch): Byte {
    ToUint8(2 * s.name + (if s.checked then 1 else 0))
  }

  function SwitchBytes(ss: seq<Switch>): (r: seq<Byte>)
    ensures |r| == |ss|
    ensures forall k :: 0 <= k < |ss| ==> r[k] == SwitchByte(ss[k])
  {
    if ss == [] then [] else [SwitchByte(ss[0])] + SwitchBytes(ss[1..])
  }

  /** The frame saved from the room-settings dialog. */
  function SettingsFrame(ss: seq<Switch>): seq<Byte> {
    [UPDATE_ROOM_SETTINGS] + SwitchBytes(ss)
  }

  /** The dialog's bytes are the four settings bytes of the room it shows. */
  lemma DialogBytes(r: Room)
    ensures SwitchBytes(Dialog(r.hidden, r.chatFilter, r.disableChat, r.disablePiano)) == Rooms.SettingsBytes(r)
  {
    var d := Dialog(r.hidden, r.chatFilter, r.disableChat, r.disablePiano);
    var b := SwitchBytes(d);
    assert b[0] == SwitchByte(d[0]) && b[1] == SwitchByte(d[1]) && b[2] == SwitchByte(d[2]) && b[3] == SwitchByte(d[3]);
  }

  /** The server applies a saved dialog to the room by setting exactly the
      four flags the dialog shows. */
  lemma SettingsFrameApplied(r: Room, hidden: bool, chatFilter: bool, disableChat: bool, disablePiano: bool)
    ensures var f := SettingsFrame(Dialog(hidden, chatFilter, disableChat, disablePiano));
      f[0] == UPDATE_ROOM_SETTINGS
      && Rooms.SettingsApplied(r, f[1..]) ==
         r.(hidden := hidden, chatFilter := chatFilter, disableChat := disableChat, disablePiano := disablePiano)
  {
    var f := SettingsFrame(Dialog(hidden, chatFilter, disableChat, disablePiano));
    var shown := r.(hidden := hidden, chatFilter := chatFilter, disableChat := disableChat, disablePiano := disablePiano);
    DialogBytes(shown);
    assert f[1..] == Rooms.SettingsBytes(shown);
    Rooms.SettingsRoundTrip(shown, r);
  }

  // ---------------------------------------------------------------------
  // The event queue.

  /** The queued frames one after another (`byteArray.push(...event)` for each). */
  function Flatten(q: seq<seq<Byte>>): seq<Byte> {
    if q == [] then [] else Flatten(q[..|q| - 1]) + q[|q| - 1]
  }

  /** What `sendEventQueue` sends for a queue: nothing, the single frame, or one batch frame. */
  function Outgoing(q: seq<seq<Byte>>): (r: seq<seq<Byte>>)
    ensures |r| <= 1 && (r == [] <==> q == [])
  {
    if q == [] then []
    else if |q| == 1 then [q[0]]
    else [[BATCH_NOTES] + Flatten(q)]
  }

  /** Frames of seven bytes each are laid end to end: frame k occupies bytes 7k .. 7k + 6. */
  lemma {:induction false} FlattenFrames(q: seq<seq<Byte>>)
    requires forall k :: 0 <= k < |q| ==> |q[k]| == 7
    ensures |Flatten(q)| == 7 * |q|
    ensures forall k :: 0 <= k < |q| ==> Flatten(q)[7 * k .. 7 * k + 7] == q[k]
    decreases |q|
  {
    if q != [] {
      var init := q[..|q| - 1];
      FlattenFrames(init);
      forall k | 0 <= k < |q|
        ensures Flatten(q)[7 * k .. 7 * k + 7] == q[k]
      {
        if k < |q| - 1 {
          assert init[k] == q[k];
          assert Flatten(q)[7 * k .. 7 * k + 7] == Flatten(init)[7 * k .. 7 * k + 7];
        }
      }
    }
  }

  /** The socket-side filter of `send`: frames only leave through an open socket. */
  function Delivered(open: bool, frames: seq<seq<Byte>>): seq<seq<Byte>> {
    if open then frames else []
  }

  /** The arrow keys' steps. */
  function TransposeStep(code: string): int {
    if code == "ArrowUp" then 1
    else if code == "ArrowDown" then -1
    else if code == "ArrowRight" then 12
    else if code == "ArrowLeft" then -12
    else 0
  }

  predicate IsArrow(code: string) {
    code in {"ArrowUp", "ArrowDown", "ArrowLeft", "ArrowRight"}
  }

  const MAX_TRANSPOSE := 36
  const QUEUE_MS := 200

  /** The note-input state of the page. */
  class Input {
    var transpose: int
    var eventQueue: seq<seq<Byte>>
    var queueStart: int
    var timerArmed: bool
    var socketOpen: bool
    var sent: seq<seq<Byte>>

    /** The transpose stays within 3 octaves, and the flush timer is armed
        exactly while events wait. */
    ghost predicate Valid()
      reads this
    {
      -MAX_TRANSPOSE <= transpose <= MAX_TRANSPOSE && (eventQueue == [] <==> !timerArmed)
    }

    constructor (socketOpen: bool)
      ensures Valid() && transpose == 0 && eventQueue == [] && sent == [] && this.socketOpen == socketOpen
    {
      transpose := 0;
      eventQueue := [];
      queueStart := 0;
      timerArmed := false;
      this.socketOpen := socketOpen;
      sent := [];
    }

    /** `send`: the frame goes out only through an open socket. */
    method Send(frame: seq<Byte>)
      modifies this`sent
      ensures sent == old(sent) + Delivered(socketOpen, [frame])
    {
      if socketOpen {
        sent := sent + [frame];
      }
    }

    /** The arrow-key branch of the keydown handler: the step, then the clamp to [-36, 36]. */
    method Arrow(code: string)
      modifies this`transpose
      ensures -MAX_TRANSPOSE <= transpose <= MAX_TRANSPOSE || !IsArrow(code)
      ensures !IsArrow(code) ==> transpose == old(transpose)
      ensures IsArrow(code) && -MAX_TRANSPOSE <= old(transpose) + TransposeStep(code) <= MAX_TRANSPOSE ==>
        transpose == old(transpose) + TransposeStep(code)
      ensures IsArrow(code) && old(transpose) + TransposeStep(code) > MAX_TRANSPOSE ==> transpose == MAX_TRANSPOSE
      ensures IsArrow(code) && old(transpose) + TransposeStep(code) < -MAX_TRANSPOSE ==> transpose == -MAX_TRANSPOSE
    {
      if !IsArrow(code) {
        return;
      }
      transpose := transpose + TransposeStep(code);
      if transpose > MAX_TRANSPOSE {
        transpose := MAX_TRANSPOSE;
      }
      if transpose < -MAX_TRANSPOSE {
        transpose := -MAX_TRANSPOSE;
      }
    }

    /** `sendEventQueue`: the timer is cleared, the queue goes out as
        nothing, its single frame, or one batch frame, and is emptied. */
    method SendEventQueue()
      modifies this`timerArmed, this`eventQueue, this`sent
      ensures !timerArmed && eventQueue == []
      ensures sent == old(sent) + Delivered(socketOpen, Outgoing(old(eventQueue)))
    {
      timerArmed := false;
      if |eventQueue| == 0 {
        return;
      }
      if |eventQueue| == 1 {
        Send(eventQueue[0]);
      }
      if |eventQueue| > 1 {
        var bytes := [BATCH_NOTES];
        for i := 0 to |eventQueue|
          invariant bytes == [BATCH_NOTES] + Flatten(eventQueue[..i])
        {
          assert eventQueue[..i + 1][..i] == eventQueue[..i];
          bytes := bytes + eventQueue[i];
        }
        assert eventQueue[..|eventQueue|] == eventQueue;
        Send(bytes);
      }
      eventQueue := [];
    }

    /** What `queueEvent` does with one frame at time `now`. */
    twostate predicate Enqueued(event: seq<Byte>, now: int)
      reads this
    {
      var q := old(eventQueue) + [event];
      var start := if old(eventQueue) == [] then now else old(queueStart);
      queueStart == start && transpose == old(transpose) && socketOpen == old(socketOpen)
      && if now - start >= QUEUE_MS then
           eventQueue == [] && !timerArmed && sent == old(sent) + Delivered(socketOpen, Outgoing(q))
         else
           eventQueue == q && timerArmed && sent == old(sent)
    }

    /** `queueEvent`: the frame joins the queue; once 200ms have passed since
        the first queued frame the queue is sent at once, otherwise the
        200ms timer is re-armed. A frame on an empty queue always waits. */
    method QueueEvent(event: seq<Byte>, now: int)
      requires Valid()
      modifies this`queueStart, this`eventQueue, this`timerArmed, this`sent
      ensures Valid() && Enqueued(event, now)
      ensures old(eventQueue) == [] ==> eventQueue == [event] && sent == old(sent)
    {
      if eventQueue == [] {
        queueStart := now;
      }
      var delta := now - queueStart;
      eventQueue := eventQueue + [event];
      timerArmed := false;
      if delta >= QUEUE_MS {
        SendEventQueue();
        return;
      }
      timerArmed := true;
    }

    /** `press`: the (transposed) key's press frame is queued; nothing happens
        when there is no such key. Sound and animation are not modelled. */
    method Press(keys: seq<Key>, key: Key, noTranspose: bool, velocity: int, ts: int, now: int)
      requires Valid()
      modifies this`queueStart, this`eventQueue, this`timerArmed, this`sent
      ensures Valid()
      ensures var k := if noTranspose then Some(key) else ApplyTranspose(keys, key, transpose);
        (k.None? ==> eventQueue == old(eventQueue) && sent == old(sent) && timerArmed == old(timerArmed))
        && (k.Some? ==> Enqueued(PressBytes(k.value.uid, velocity, ts), now))
    {
      var k := if noTranspose then Some(key) else ApplyTranspose(keys, key, transpose);
      if k.None? {
        return;
      }
      QueueEvent(PressBytes(k.value.uid, velocity, ts), now);
    }

    /** `release`: the same with the release frame. */
    method Release(keys: seq<Key>, key: Key, noTranspose: bool, allPlayings: bool, ts: int, now: int)
      requires Valid()
      modifies this`queueStart, this`eventQueue, this`timerArmed, this`sent
      ensures Valid()
      ensures var k := if noTranspose then Some(key) else ApplyTranspose(keys, key, transpose);
        (k.None? ==> eventQueue == old(eventQueue) && sent == old(sent) && timerArmed == old(timerArmed))
        && (k.Some? ==> Enqueued(ReleaseBytes(k.value.uid, allPlayings, ts), now))
    {
      var k := if noTranspose then Some(key) else ApplyTranspose(keys, key, transpose);
      if k.None? {
        return;
      }
      QueueEvent(ReleaseBytes(k.value.uid, allPlayings, ts), now);
    }

    /** The room-settings dialog's save button: a confirmed dialog sends its frame. */
    method SaveSettings(confirmed: bool, switches: seq<Switch>)
      modifies this`sent
      ensures sent == old(sent) + Delivered(socketOpen, if confirmed then [SettingsFrame(switches)] else [])
    {
      if !confirmed {
        return;
      }
      Send(SettingsFrame(switches));
    }
  }
}
