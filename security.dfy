/** Address hashing and the sliding-window rate limiter (server/src/utils/security.js). */
module Security {
  import opened Wrappers
  import opened Text
  import opened Protocol
  import opened State
  import opened Network

  // ---------------------------------------------------------------------
  // hashIP: the address is cut at ':' and '.', the pieces are reversed and
  // glued with "_x_", and the salted result is hashed (hash left opaque).

  predicate IsIpSep(c: char) {
    c == ':' || c == '.'
  }

  function Shuffle(ip: string): string {
    Join(Reverse(SplitOn(ip, IsIpSep)), "_x_")
  }

  /** Template text of an optional setting: an unset salt reads "undefined". */
  function OptText(o: Option<string>): string {
    match o
    case Some(s) => s
    case None => "undefined"
  }

  function HashInput(saltOne: Option<string>, saltTwo: Option<string>, ip: string): string {
    OptText(saltOne) + Shuffle(ip) + OptText(saltTwo)
  }

  predicate NoSep(s: string, isSep: char -> bool) {
    forall i :: 0 <= i < |s| ==> !isSep(s[i])
  }

  lemma {:induction false} SplitPlain(a: string, rest: string, isSep: char -> bool)
    requires NoSep(a, isSep)
    ensures SplitOn(a + rest, isSep) == [a + SplitOn(rest, isSep)[0]] + SplitOn(rest, isSep)[1..]
  {
    if a == [] {
      assert a + rest == rest;
      var r := SplitOn(rest, isSep);
      assert a + r[0] == r[0];
      assert r == [r[0]] + r[1..];
    } else {
      assert (a + rest)[0] == a[0];
      assert (a + rest)[1..] == a[1..] + rest;
      SplitPlain(a[1..], rest, isSep);
      assert [a[0]] + (a[1..] + SplitOn(rest, isSep)[0]) == a + SplitOn(rest, isSep)[0];
    }
  }

  /** Splitting undoes joining when the pieces hold no separator. */
  lemma {:induction false} SplitJoin(parts: seq<string>, sep: char, isSep: char -> bool)
    requires |parts| >= 1 && isSep(sep)
    requires forall k :: 0 <= k < |parts| ==> NoSep(parts[k], isSep)
    ensures SplitOn(Join(parts, [sep]), isSep) == parts
  {
    if |parts| == 1 {
      SplitPlain(parts[0], "", isSep);
      assert parts[0] + "" == parts[0];
    } else {
      SplitJoin(parts[1..], sep, isSep);
      var tail := Join(parts[1..], [sep]);
      assert Join(parts, [sep]) == parts[0] + ([sep] + tail);
      SplitPlain(parts[0], [sep] + tail, isSep);
      assert ([sep] + tail)[1..] == tail;
      assert SplitOn([sep] + tail, isSep) == [""] + parts[1..];
      assert parts[0] + "" == parts[0];
    }
  }

  /** A dotted address `a.b.c.d` is hashed as `d_x_c_x_b_x_a`. */
  lemma ShuffleDotted(parts: seq<string>)
    requires |parts| >= 1
    requires forall k :: 0 <= k < |parts| ==> NoSep(parts[k], IsIpSep)
    ensures Shuffle(Join(parts, ".")) == Join(Reverse(parts), "_x_")
  {
    SplitJoin(parts, '.', IsIpSep);
  }

  // ---------------------------------------------------------------------
  // rateLimit: one window of recent call times per `ip + "_" + action`.

  function RateKey(ip: Option<string>, action: string): string {
    OptText(ip) + "_" + action
  }

  /** Different actions of one address never share a window. */
  lemma RateKeyInjective(ip: Option<string>, a1: string, a2: string)
    ensures RateKey(ip, a1) == RateKey(ip, a2) ==> a1 == a2
  {
    var p := OptText(ip) + "_";
    if RateKey(ip, a1) == RateKey(ip, a2) {
      assert a1 == RateKey(ip, a1)[|p|..];
      assert a2 == RateKey(ip, a2)[|p|..];
    }
  }

  /** The times still inside the window that ends at `now`. */
  function Prune(w: seq<int>, now: int, ms: int): (r: seq<int>)
    ensures |r| <= |w|
    ensures forall t :: t in r <==> t in w && t > now - ms
  {
    if w == [] then []
    else if w[0] > now - ms then [w[0]] + Prune(w[1..], now, ms)
    else Prune(w[1..], now, ms)
  }

  predicate Allowed(w: seq<int>, now: int, lim: Limit) {
    |Prune(w, now, lim.ms)| < lim.reqs
  }

  /** The window after a call: pruned, plus `now` when the call is allowed. */
  function WindowAfter(w: seq<int>, now: int, lim: Limit): (r: seq<int>)
    ensures Allowed(w, now, lim) ==> r == Prune(w, now, lim.ms) + [now] && |r| <= lim.reqs
    ensures !Allowed(w, now, lim) ==> r == Prune(w, now, lim.ms) && |r| >= lim.reqs
  {
    var p := Prune(w, now, lim.ms);
    if |p| >= lim.reqs then p else p + [now]
  }

  /** The socket after a refused call: a one-byte notice, the violation
      counter (unset counts as 1) raised by one, and a close past 3. */
  function Violation(s: Session): (r: Session)
    ensures r.outbox == s.outbox + [Binary([RATE_LIMIT_WARNING_BYTE])]
    ensures r.client == s.client && r.roomName == s.roomName && r.clientId == s.clientId && r.ip == s.ip
  {
    var base := if s.rateLimitWarnings == 0 then 1 else s.rateLimitWarnings;
    var s1 := s.Send(Binary([RATE_LIMIT_WARNING_BYTE])).(rateLimitWarnings := base + 1);
    if s1.rateLimitWarnings > 3 then SafeClose(s1) else s1
  }

  function Violations(s: Session, k: nat): Session {
    if k == 0 then s else Violation(Violations(s, k - 1))
  }

  /** From a fresh socket, k violations leave the counter at k + 1, k notices
      in the outbox, and the socket closing from the third one on. */
  lemma {:induction false} Escalation(s: Session, k: nat)
    requires s.rateLimitWarnings == 0 && s.state == Open && k >= 1
    ensures Violations(s, k).rateLimitWarnings == k + 1
    ensures |Violations(s, k).outbox| == |s.outbox| + k
    ensures Violations(s, k).state == (if k >= 3 then Closing else Open)
  {
    if k > 1 {
      Escalation(s, k - 1);
    }
  }

  // ---------------------------------------------------------------------
  // Over a run of calls on one key, at most `reqs` admitted calls ever lie
  // inside one window.

  predicate Sorted(ts: seq<int>) {
    forall i, j :: 0 <= i < j < |ts| ==> ts[i] <= ts[j]
  }

  /** The window after replaying the call times `ts` from an empty one. */
  function Replay(ts: seq<int>, lim: Limit): seq<int> {
    if ts == [] then [] else WindowAfter(Replay(ts[..|ts| - 1], lim), ts[|ts| - 1], lim)
  }

  /** The times of the calls that were admitted. */
  function Admitted(ts: seq<int>, lim: Limit): seq<int> {
    if ts == [] then []
    else
      var p := ts[..|ts| - 1];
      Admitted(p, lim) + (if Allowed(Replay(p, lim), ts[|ts| - 1], lim) then [ts[|ts| - 1]] else [])
  }

  lemma {:induction false} PruneTwice(w: seq<int>, t0: int, t: int, ms: int)
    requires t0 <= t
    ensures Prune(Prune(w, t0, ms), t, ms) == Prune(w, t, ms)
  {
    if w != [] {
      PruneTwice(w[1..], t0, t, ms);
    }
  }

  lemma {:induction false} PruneAppend(a: seq<int>, b: seq<int>, now: int, ms: int)
    ensures Prune(a + b, now, ms) == Prune(a, now, ms) + Prune(b, now, ms)
  {
    if a == [] {
      assert a + b == b;
    } else {
      assert (a + b)[0] == a[0];
      assert (a + b)[1..] == a[1..] + b;
      PruneAppend(a[1..], b, now, ms);
    }
  }

  lemma {:induction false} PruneShrinks(w: seq<int>, t0: int, t: int, ms: int)
    requires t0 <= t
    ensures |Prune(w, t, ms)| <= |Prune(w, t0, ms)|
  {
    if w != [] {
      PruneShrinks(w[1..], t0, t, ms);
    }
  }

  /** The limiter's window is exactly the admitted times still inside it. */
  lemma {:induction false} ReplayIsWindow(ts: seq<int>, lim: Limit)
    requires Sorted(ts) && |ts| >= 1 && lim.ms > 0
    ensures Replay(ts, lim) == Prune(Admitted(ts, lim), ts[|ts| - 1], lim.ms)
    decreases |ts|
  {
    var p := ts[..|ts| - 1];
    var t := ts[|ts| - 1];
    var extra := if Allowed(Replay(p, lim), t, lim) then [t] else [];
    PruneAppend(Admitted(p, lim), extra, t, lim.ms);
    assert Prune(extra, t, lim.ms) == extra;
    if |p| > 0 {
      assert Sorted(p);
      ReplayIsWindow(p, lim);
      PruneTwice(Admitted(p, lim), p[|p| - 1], t, lim.ms);
    }
  }

  /** The rate limiter's promise: however the calls on one key are timed,
      no window of `ms` milliseconds ending at a call holds more than
      `reqs` admitted calls. */
  lemma {:induction false} SlidingWindowBound(ts: seq<int>, lim: Limit)
    requires Sorted(ts) && |ts| >= 1 && lim.ms > 0
    ensures |Prune(Admitted(ts, lim), ts[|ts| - 1], lim.ms)| <= lim.reqs
    decreases |ts|
  {
    var p := ts[..|ts| - 1];
    var t := ts[|ts| - 1];
    var extra := if Allowed(Replay(p, lim), t, lim) then [t] else [];
    PruneAppend(Admitted(p, lim), extra, t, lim.ms);
    assert Prune(extra, t, lim.ms) == extra;
    if |p| > 0 {
      assert Sorted(p);
      var tp := p[|p| - 1];
      SlidingWindowBound(p, lim);
      PruneShrinks(Admitted(p, lim), tp, t, lim.ms);
      ReplayIsWindow(p, lim);
      PruneTwice(Admitted(p, lim), tp, t, lim.ms);
    }
  }
}
