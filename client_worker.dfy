/**
 * The client's note scheduler (client/src/worker.js): it buffers decoded
 * note events, keeps the latest ten ping samples, and every tick hands the
 * whole buffer to the page with a delay of `ts - now + lookahead`, the
 * lookahead growing with the average ping.
 *
 * Times are real milliseconds; a `setTimeout(playNote, delay)` is logged
 * in `timers` as the pair (delay, event).
 */
module ClientWorker {
  import opened Wrappers
  import opened Codec

  /** A note event as the page decodes it: `undefined` bytes are `None`. */
  datatype NoteEvent =
    | PressEvent(ts: int, noteUid: Option<Byte>, clientId: Byte, velocity: Option<Byte>)
    | ReleaseEvent(ts: int, noteUid: Option<Byte>, allPlayings: bool, clientId: Byte)

  /** The messages the page posts to the worker; any other type is ignored. */
  datatype WorkerMessage =
    | AddEvent(event: NoteEvent)
    | SetServerTimeOffset(offset: real)
    | AddPing(ms: real)
    | OtherMessage

  const MAX_PINGS := 10

  /** The thresholds of the lookahead ladder. */
  const PING_STEPS: seq<int> :=
    [10, 50, 100, 200, 300, 400, 500, 600, 700, 800, 900, 1000, 2000, 3000, 4000, 5000, 10000, 15000]

  // ---------------------------------------------------------------------
  // The ping window.

  /** The last n elements of xs (all of them when there are fewer). */
  function Latest<T>(xs: seq<T>, n: nat): (r: seq<T>)
    ensures |r| <= n && |r| <= |xs|
    ensures |xs| <= n ==> r == xs
    ensures |xs| >= n ==> |r| == n && r == xs[|xs| - n..]
  {
    if |xs| <= n then xs else xs[|xs| - n..]
  }

  /** Pushing a sample and shifting once past n is the latest-n window of the longer history. */
  lemma LatestSnoc<T>(xs: seq<T>, x: T, n: nat)
    requires n > 0
    ensures var w := Latest(xs, n) + [x];
      Latest(xs + [x], n) == if |w| > n then w[1..] else w
  {
    var w := Latest(xs, n) + [x];
    if |xs| >= n {
      assert w[1..] == (xs + [x])[|xs| + 1 - n..];
    }
  }

  function Sum(xs: seq<real>): real {
    if xs == [] then 0.0 else xs[0] + Sum(xs[1..])
  }

  /** `Math.ceil`. */
  function Ceil(x: real): (r: int)
    ensures (r - 1) as real < x <= r as real
  {
    -((-x).Floor)
  }

  /** The average ping: the ceiling of the mean of the window, 0 when it is empty. */
  function AveragePing(pings: seq<real>): (r: int)
    ensures pings == [] ==> r == 0
    ensures pings != [] ==> (r - 1) as real < Sum(pings) / |pings| as real <= r as real
  {
    if |pings| > 0 then Ceil(Sum(pings) / |pings| as real) else 0
  }

  /** A window of samples that are all at most h averages to at most h. */
  lemma {:induction false} AveragePingBound(pings: seq<real>, h: int)
    requires forall k :: 0 <= k < |pings| ==> pings[k] <= h as real
    ensures AveragePing(pings) <= (if pings == [] then 0 else h)
  {
    if pings != [] {
      SumBound(pings, h);
      var n := |pings| as real;
      assert Sum(pings) / n <= h as real by {
        assert Sum(pings) <= n * h as real;
      }
    }
  }

  lemma {:induction false} SumBound(xs: seq<real>, h: int)
    requires forall k :: 0 <= k < |xs| ==> xs[k] <= h as real
    ensures Sum(xs) <= |xs| as real * h as real
    decreases |xs|
  {
    if xs != [] {
      SumBound(xs[1..], h);
    }
  }

  // ---------------------------------------------------------------------
  // The lookahead ladder.

  /** What step i adds: its rise over the previous step when the average is above it. */
  function StepGain(steps: seq<int>, average: int, i: nat): int
    requires i < |steps|
  {
    if average > steps[i] then steps[i] - (if i == 0 then 0 else steps[i - 1]) else 0
  }

  /** The gains of the first n steps, as the loop accumulates them. */
  function Gains(steps: seq<int>, average: int, n: nat): int
    requires n <= |steps|
  {
    if n == 0 then 0 else Gains(steps, average, n - 1) + StepGain(steps, average, n - 1)
  }

  /** The largest of the first n steps strictly below the average, or 0. */
  function LargestBelow(steps: seq<int>, average: int, n: nat): (r: int)
    requires n <= |steps|
    ensures r == 0 || exists i :: 0 <= i < n && steps[i] == r && r < average
  {
    if n == 0 then 0
    else if steps[n - 1] < average then steps[n - 1]
    else LargestBelow(steps, average, n - 1)
  }

  predicate Increasing(steps: seq<int>) {
    forall i :: 0 < i < |steps| ==> steps[i - 1] < steps[i]
  }

  /** On an increasing ladder no step below the average exceeds LargestBelow. */
  lemma {:induction false} LargestBelowIsMax(steps: seq<int>, average: int, n: nat)
    requires n <= |steps| && Increasing(steps)
    ensures forall i :: 0 <= i < n && steps[i] < average ==> steps[i] <= LargestBelow(steps, average, n)
  {
    if n > 0 {
      LargestBelowIsMax(steps, average, n - 1);
      if steps[n - 1] < average {
        StepsIncrease(steps, n - 1);
      }
    }
  }

  lemma {:induction false} StepsIncrease(steps: seq<int>, j: nat)
    requires j < |steps| && Increasing(steps)
    ensures forall i :: 0 <= i < j ==> steps[i] < steps[j]
    decreases j
  {
    if j > 0 {
      StepsIncrease(steps, j - 1);
    }
  }

  /** The loop's sum telescopes: on an increasing ladder the gains add up to
      the largest step below the average. */
  lemma {:induction false} Telescope(steps: seq<int>, average: int, n: nat)
    requires n <= |steps| && Increasing(steps)
    ensures Gains(steps, average, n) == LargestBelow(steps, average, n)
  {
    if n > 0 {
      Telescope(steps, average, n - 1);
      if average > steps[n - 1] && n > 1 {
        assert steps[n - 2] < steps[n - 1];
      }
    }
  }

  lemma PingStepsIncrease()
    ensures Increasing(PING_STEPS)
  {
  }

  /** The lookahead of a tick: the base plus the largest step below the average ping. */
  function Lookahead(base: int, pings: seq<real>): int {
    base + LargestBelow(PING_STEPS, AveragePing(pings), |PING_STEPS|)
  }

  /** The lookahead of a tick, computed as `processNotes` does. */
  method ComputeLookahead(base: int, pings: seq<real>) returns (lookahead: int)
    ensures lookahead == Lookahead(base, pings)
  {
    var average := AveragePing(pings);
    lookahead := ClimbLadder(PING_STEPS, average, base);
    PingStepsIncrease();
    Telescope(PING_STEPS, average, |PING_STEPS|);
  }

  /** The lookahead loop of `processNotes` over a ladder of steps. */
  method ClimbLadder(steps: seq<int>, average: int, base: int) returns (lookahead: int)
    ensures lookahead == base + Gains(steps, average, |steps|)
  {
    lookahead := base;
    for i := 0 to |steps|
      invariant lookahead == base + Gains(steps, average, i)
    {
      if average > steps[i] {
        var prev := if i == 0 then 0 else steps[i - 1];
        lookahead := lookahead + steps[i] - prev;
      }
    }
  }

  // ---------------------------------------------------------------------
  // Scheduling.

  function Max0(x: real): real {
    if x < 0.0 then 0.0 else x
  }

  /** The delay an event is played after: `Math.max(0, ts - now + lookahead)`. */
  function Delay(e: NoteEvent, now: real, lookahead: int): (d: real)
    ensures d >= 0.0
    ensures d == 0.0 || d == e.ts as real - now + lookahead as real
  {
    Max0(e.ts as real - now + lookahead as real)
  }

  /** The timers a tick sets for a buffer, in buffer order. */
  function Schedule(events: seq<NoteEvent>, now: real, lookahead: int): (r: seq<(real, NoteEvent)>)
    ensures |r| == |events|
    ensures forall k :: 0 <= k < |events| ==> r[k] == (Delay(events[k], now, lookahead), events[k])
  {
    if events == [] then []
    else
      var last := events[|events| - 1];
      Schedule(events[..|events| - 1], now, lookahead) + [(Delay(last, now, lookahead), last)]
  }

  class Worker {
    var noteBuffer: seq<NoteEvent>
    var serverTimeOffset: real
    var pingMs: seq<real>
    var timers: seq<(real, NoteEvent)>
    /** Every ping sample received so far. */
    ghost var pings: seq<real>
    /** `LOOKAHEAD_MS`, whose value is not part of this model. */
    const lookaheadMs: int

    /** The window holds the latest ten samples. */
    ghost predicate Valid()
      reads this
    {
      pingMs == Latest(pings, MAX_PINGS)
    }

    constructor (lookaheadMs: int)
      ensures Valid() && noteBuffer == [] && serverTimeOffset == 0.0 && pingMs == [] && timers == []
      ensures this.lookaheadMs == lookaheadMs
    {
      noteBuffer := [];
      serverTimeOffset := 0.0;
      pingMs := [];
      timers := [];
      pings := [];
      this.lookaheadMs := lookaheadMs;
    }

    /** `onmessage`. */
    method OnMessage(m: WorkerMessage)
      requires Valid()
      modifies this`noteBuffer, this`serverTimeOffset, this`pingMs, this`pings
      ensures Valid() && |pingMs| <= MAX_PINGS
      ensures noteBuffer == old(noteBuffer) + (if m.AddEvent? then [m.event] else [])
      ensures serverTimeOffset == if m.SetServerTimeOffset? then m.offset else old(serverTimeOffset)
      ensures pings == old(pings) + (if m.AddPing? then [m.ms] else [])
      ensures m.AddPing? ==> |pingMs| >= 1 && pingMs[|pingMs| - 1] == m.ms
    {
      match m
      case AddEvent(e) =>
        noteBuffer := noteBuffer + [e];
      case SetServerTimeOffset(offset) =>
        serverTimeOffset := offset;
      case AddPing(ms) =>
        LatestSnoc(pings, ms, MAX_PINGS);
        pings := pings + [ms];
        pingMs := pingMs + [ms];
        if |pingMs| > MAX_PINGS {
          pingMs := pingMs[1..];
        }
      case OtherMessage =>
    }

    /** `processNotes`, one tick at page time `perfNow`: the whole buffer is
        drained and each event gets a timer, in order, with a delay that is
        never negative. */
    method ProcessNotes(perfNow: real)
      modifies this`noteBuffer, this`timers
      ensures noteBuffer == []
      ensures timers == old(timers)
        + Schedule(old(noteBuffer), perfNow + serverTimeOffset, Lookahead(lookaheadMs, pingMs))
      ensures forall k :: |old(timers)| <= k < |timers| ==> timers[k].0 >= 0.0
    {
      if |noteBuffer| == 0 {
        return;
      }
      var now := perfNow + serverTimeOffset;
      var lookahead := ComputeLookahead(lookaheadMs, pingMs);
      var events := noteBuffer;
      noteBuffer := [];
      SetTimers(events, now, lookahead);
    }

    /** The `setTimeout` loop over the drained events. */
    method SetTimers(events: seq<NoteEvent>, now: real, lookahead: int)
      modifies this`timers
      ensures timers == old(timers) + Schedule(events, now, lookahead)
    {
      for k := 0 to |events|
        invariant timers == old(timers) + Schedule(events[..k], now, lookahead)
      {
        assert events[..k + 1][..k] == events[..k];
        timers := timers + [(Delay(events[k], now, lookahead), events[k])];
      }
      assert events[..|events|] == events;
    }
  }
}
