/** Player records and the note quota (server/src/utils/client.js). */
module Clients {
  import opened Wrappers
  import opened Text
  import opened Protocol
  import opened State

  /** The random name suffix of a new player, 0..999. */
  type Roll = r: nat | r < 1000

  /** A player seen for the first time; `roll` is the random name suffix. */
  function NewClient(uuid: string, roll: Roll, color: string): (c: Client)
    ensures c.noteQuota == MAX_NOTE_QUOTA && !c.isAdmin && c.uuid == uuid
    ensures StartsWith(c.username, "Player")
  {
    Client(uuid, "Player" + NatToString(roll), color, false, MAX_NOTE_QUOTA)
  }

  /** A player loaded from the store, with a full quota. */
  function WrapClient(uuid: string, username: string, isAdmin: bool, color: string): (c: Client)
    ensures c.noteQuota == MAX_NOTE_QUOTA
    ensures c.uuid == uuid && c.username == username && c.isAdmin == isAdmin && c.color == color
  {
    Client(uuid, username, color, isAdmin, MAX_NOTE_QUOTA)
  }

  /** A vanished admin is hidden from the room: the name starts with "#". */
  predicate IsVanished(s: Session) {
    s.client.Some? && s.client.value.isAdmin && StartsWith(s.client.value.username, "#")
  }

  const QUOTA_NOTICE := "You're playing too many notes. Others won't hear them."

  function Min(a: int, b: int): int {
    if a < b then a else b
  }

  /** The quota after the time-based refill: one note per 30ms since the
      last played note, capped at `MAX_NOTE_QUOTA`. */
  function Refill(s: Session, now: int): int
    requires s.client.Some?
  {
    var q := s.client.value.noteQuota;
    if s.lastNotePlayed != 0 && now - s.lastNotePlayed > 30 then
      Min(q + (now - s.lastNotePlayed) / 30, MAX_NOTE_QUOTA)
    else q
  }

  /** Whether a note may be played (`noteQuotaCheck`'s result). */
  predicate QuotaOk(s: Session, now: int)
    requires s.client.Some?
  {
    Refill(s, now) > 0
  }

  /** The socket after `noteQuotaCheck`: refilled quota, and on failure a
      notice unless one went out in the last 5000ms. */
  function QuotaChecked(s: Session, now: int): (r: Session)
    requires s.client.Some?
    ensures r.client.Some? && r.client.value == s.client.value.(noteQuota := Refill(s, now))
    ensures r.lastNotePlayed == s.lastNotePlayed && r.lastPlayedNote == s.lastPlayedNote
    ensures r.roomName == s.roomName && r.clientId == s.clientId && r.state == s.state
    ensures QuotaOk(s, now) ==> r.outbox == s.outbox && r.lastQuotaWarning == s.lastQuotaWarning
  {
    var s1 := s.(client := Some(s.client.value.(noteQuota := Refill(s, now))));
    if Refill(s, now) <= 0 then
      if s.lastQuotaWarning == 0 || now - s.lastQuotaWarning > 5000 then
        s1.Send(SystemMsg(QUOTA_NOTICE)).(lastQuotaWarning := now)
      else s1
    else s1
  }

  /** The refill never lowers a quota that is within the cap, and never lifts it above the cap. */
  lemma RefillBounds(s: Session, now: int)
    requires s.client.Some? && s.client.value.noteQuota <= MAX_NOTE_QUOTA
    ensures s.client.value.noteQuota <= Refill(s, now) <= MAX_NOTE_QUOTA
    ensures Refill(s, now) > s.client.value.noteQuota ==> s.lastNotePlayed != 0 && now - s.lastNotePlayed > 30
  {
  }

  /** A refused note sends the notice only when none went out in the last
      5000ms, and sending it records the time. */
  lemma NoticeThrottled(s: Session, now: int)
    requires s.client.Some? && !QuotaOk(s, now)
    ensures var r := QuotaChecked(s, now);
      (|r.outbox| > |s.outbox| <==> s.lastQuotaWarning == 0 || now - s.lastQuotaWarning > 5000)
      && (|r.outbox| > |s.outbox| ==> r.outbox == s.outbox + [SystemMsg(QUOTA_NOTICE)] && r.lastQuotaWarning == now)
      && (|r.outbox| == |s.outbox| ==> r.lastQuotaWarning == s.lastQuotaWarning)
  {
  }

  /** Two refused notes less than 5000ms apart send at most one notice. */
  lemma NoticeAtMostOncePer5s(s: Session, t1: int, t2: int)
    requires s.client.Some? && t1 != 0 && t1 <= t2 <= t1 + 5000
    requires !QuotaOk(s, t1) && !QuotaOk(QuotaChecked(s, t1), t2)
    ensures var r1 := QuotaChecked(s, t1);
      !(|r1.outbox| > |s.outbox| && |QuotaChecked(r1, t2).outbox| > |r1.outbox|)
  {
    NoticeThrottled(s, t1);
    NoticeThrottled(QuotaChecked(s, t1), t2);
  }
}
