/** Sending frames (server/src/utils/network.js). */
module Network {
  import opened Wrappers
  import opened Protocol
  import opened State
  import opened Clients

  /** `ws.send(f)` on one socket of the table; an unknown id is a no-op. */
  function SendTo(ss: map<Sid, Session>, c: Sid, f: Frame): (r: map<Sid, Session>)
    ensures r.Keys == ss.Keys
  {
    if c in ss then ss[c := ss[c].Send(f)] else ss
  }

  /** Several frames to one socket, in order; an unknown id is a no-op. */
  function SendAll(ss: map<Sid, Session>, c: Sid, fs: seq<Frame>): (r: map<Sid, Session>)
    ensures r.Keys == ss.Keys
    ensures c in ss ==> r[c] == ss[c].(outbox := ss[c].outbox + fs)
    ensures forall d :: d in ss && d != c ==> r[d] == ss[d]
  {
    if c in ss then ss[c := ss[c].(outbox := ss[c].outbox + fs)] else ss
  }

  lemma SendAllNone(ss: map<Sid, Session>, c: Sid)
    ensures SendAll(ss, c, []) == ss
  {
    if c in ss {
      assert ss[c].outbox + [] == ss[c].outbox;
    }
  }

  lemma SendAllAppend(ss: map<Sid, Session>, c: Sid, fs: seq<Frame>, f: Frame)
    ensures SendAll(ss, c, fs + [f]) == SendTo(SendAll(ss, c, fs), c, f)
  {
    if c in ss {
      assert ss[c].outbox + (fs + [f]) == (ss[c].outbox + fs) + [f];
    }
  }

  lemma SendAllTwice(ss: map<Sid, Session>, c: Sid, a: seq<Frame>, b: seq<Frame>)
    ensures SendAll(SendAll(ss, c, a), c, b) == SendAll(ss, c, a + b)
  {
    if c in ss {
      assert (ss[c].outbox + a) + b == ss[c].outbox + (a + b);
    }
  }

  /** Sending `f` to each id of `to`, in order. */
  function Deliver(ss: map<Sid, Session>, to: seq<Sid>, f: Frame): (r: map<Sid, Session>)
    ensures r.Keys == ss.Keys
    decreases |to|
  {
    if to == [] then ss else Deliver(SendTo(ss, to[0], f), to[1..], f)
  }

  function Count(to: seq<Sid>, c: Sid): nat {
    if to == [] then 0 else (if to[0] == c then 1 else 0) + Count(to[1..], c)
  }

  function Copies(f: Frame, n: nat): seq<Frame>
    ensures |Copies(f, n)| == n
  {
    if n == 0 then [] else [f] + Copies(f, n - 1)
  }

  /** Each socket receives one copy per occurrence in `to`, and nothing else changes. */
  lemma {:induction false} DeliverOutbox(ss: map<Sid, Session>, to: seq<Sid>, f: Frame, c: Sid)
    requires c in ss
    ensures Deliver(ss, to, f)[c] == ss[c].(outbox := ss[c].outbox + Copies(f, Count(to, c)))
    decreases |to|
  {
    if to == [] {
      assert ss[c].outbox + [] == ss[c].outbox;
    } else {
      var ss1 := SendTo(ss, to[0], f);
      DeliverOutbox(ss1, to[1..], f, c);
      if to[0] == c {
        assert Copies(f, Count(to, c)) == [f] + Copies(f, Count(to[1..], c));
        assert ss[c].outbox + [f] + Copies(f, Count(to[1..], c)) == ss[c].outbox + Copies(f, Count(to, c));
      }
    }
  }

  lemma {:induction false} DeliverAppend(ss: map<Sid, Session>, to: seq<Sid>, c: Sid, f: Frame)
    ensures Deliver(ss, to + [c], f) == SendTo(Deliver(ss, to, f), c, f)
    decreases |to|
  {
    if to == [] {
      assert to + [c] == [c];
    } else {
      assert (to + [c])[1..] == to[1..] + [c];
      DeliverAppend(SendTo(ss, to[0], f), to[1..], c, f);
    }
  }

  /** Sending to the sender's room never reaches the sender itself. */
  lemma {:induction false} DeliverSkips(ss: map<Sid, Session>, to: seq<Sid>, f: Frame, c: Sid)
    requires c !in to
    ensures c in ss ==> Deliver(ss, to, f)[c] == ss[c]
    decreases |to|
  {
    if to != [] {
      DeliverSkips(SendTo(ss, to[0], f), to[1..], f, c);
    }
  }

  /** Two socket tables that differ at most in what was sent. */
  predicate OutboxesOnly(ss: map<Sid, Session>, ss': map<Sid, Session>) {
    ss'.Keys == ss.Keys && forall c :: c in ss ==> ss'[c] == ss[c].(outbox := ss'[c].outbox)
  }

  lemma DeliverOutboxesOnly(ss: map<Sid, Session>, to: seq<Sid>, f: Frame)
    ensures OutboxesOnly(ss, Deliver(ss, to, f))
  {
    forall c | c in ss
      ensures Deliver(ss, to, f)[c] == ss[c].(outbox := Deliver(ss, to, f)[c].outbox)
    {
      DeliverOutbox(ss, to, f, c);
    }
  }

  /** Sending each id of `to` its own frame, in order. */
  function DeliverEach(ss: map<Sid, Session>, to: seq<Sid>, frameOf: Sid -> Frame): (r: map<Sid, Session>)
    ensures r.Keys == ss.Keys
    decreases |to|
  {
    if to == [] then ss else DeliverEach(SendTo(ss, to[0], frameOf(to[0])), to[1..], frameOf)
  }

  lemma {:induction false} DeliverEachAppend(ss: map<Sid, Session>, to: seq<Sid>, c: Sid, frameOf: Sid -> Frame)
    ensures DeliverEach(ss, to + [c], frameOf) == SendTo(DeliverEach(ss, to, frameOf), c, frameOf(c))
    decreases |to|
  {
    if to == [] {
      assert to + [c] == [c];
    } else {
      assert (to + [c])[1..] == to[1..] + [c];
      DeliverEachAppend(SendTo(ss, to[0], frameOf(to[0])), to[1..], c, frameOf);
    }
  }

  /** Each socket receives its own frame once per occurrence in `to`, and nothing else changes. */
  lemma {:induction false} DeliverEachOutbox(ss: map<Sid, Session>, to: seq<Sid>, frameOf: Sid -> Frame, c: Sid)
    requires c in ss
    ensures DeliverEach(ss, to, frameOf)[c] == ss[c].(outbox := ss[c].outbox + Copies(frameOf(c), Count(to, c)))
    decreases |to|
  {
    var f := frameOf(c);
    if to == [] {
      assert ss[c].outbox + [] == ss[c].outbox;
    } else {
      var ss1 := SendTo(ss, to[0], frameOf(to[0]));
      DeliverEachOutbox(ss1, to[1..], frameOf, c);
      if to[0] == c {
        assert Copies(f, Count(to, c)) == [f] + Copies(f, Count(to[1..], c));
        assert ss[c].outbox + [f] + Copies(f, Count(to[1..], c)) == ss[c].outbox + Copies(f, Count(to, c));
      }
    }
  }

  lemma DeliverEachOutboxesOnly(ss: map<Sid, Session>, to: seq<Sid>, frameOf: Sid -> Frame)
    ensures OutboxesOnly(ss, DeliverEach(ss, to, frameOf))
  {
    forall c | c in ss
      ensures DeliverEach(ss, to, frameOf)[c] == ss[c].(outbox := DeliverEach(ss, to, frameOf)[c].outbox)
    {
      DeliverEachOutbox(ss, to, frameOf, c);
    }
  }

  /** The room members other than the sender, in member order. */
  function Others(members: seq<Sid>, sender: Sid): (r: seq<Sid>)
    ensures forall c :: c in r <==> c in members && c != sender
    ensures |r| <= |members|
  {
    if members == [] then []
    else if members[0] == sender then Others(members[1..], sender)
    else [members[0]] + Others(members[1..], sender)
  }

  lemma {:induction false} OthersAppend(members: seq<Sid>, c: Sid, sender: Sid)
    ensures Others(members + [c], sender) == Others(members, sender) + (if c == sender then [] else [c])
  {
    if members == [] {
      assert members + [c] == [c];
    } else {
      assert (members + [c])[1..] == members[1..] + [c];
      OthersAppend(members[1..], c, sender);
    }
  }

  lemma {:induction false} OthersCount(members: seq<Sid>, sender: Sid, c: Sid)
    ensures Count(Others(members, sender), c) == if c == sender then 0 else Count(members, c)
  {
    if members != [] {
      OthersCount(members[1..], sender, c);
    }
  }

  /** Who `broadcastToRoom(ws, f, bypass)` sends to: every member of the
      sender's room but the sender, or nobody when the sender has no room,
      the room is gone, or the sender is vanished without bypass. */
  function Recipients(rooms: map<string, Room>, ss: map<Sid, Session>, sender: Sid, bypass: bool): seq<Sid>
    requires sender in ss
  {
    var s := ss[sender];
    if !s.HasRoom() || s.RoomKey() !in rooms then []
    else if IsVanished(s) && !bypass then []
    else Others(rooms[s.RoomKey()].clients, sender)
  }

  /** Exactly the other members each get one copy per seat; the sender and strangers get none. */
  lemma BroadcastReach(rooms: map<string, Room>, ss: map<Sid, Session>, sender: Sid, bypass: bool, c: Sid)
    requires sender in ss
    ensures var s := ss[sender];
      Count(Recipients(rooms, ss, sender, bypass), c) ==
        if c == sender || !s.HasRoom() || s.RoomKey() !in rooms || (IsVanished(s) && !bypass) then 0
        else Count(rooms[s.RoomKey()].clients, c)
  {
    var s := ss[sender];
    if !(!s.HasRoom() || s.RoomKey() !in rooms || (IsVanished(s) && !bypass)) {
      OthersCount(rooms[s.RoomKey()].clients, sender, c);
    }
  }

  /** `safeClose`: start closing an open socket; one already closing or closed is left alone. */
  function SafeClose(s: Session): (r: Session)
    ensures s.state != Open ==> r == s
    ensures s.state == Open ==> r == s.(state := Closing)
  {
    match s.state
    case Closing => s
    case Closed => s
    case Open => s.(state := Closing)
  }
}
