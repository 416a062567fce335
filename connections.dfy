/**
 * The origin check and the per-address count of open connections
 * (server/src/services/clientManager.js `handleConnection`/`handleClose`).
 *
 * The table maps an address to its count. A decrement of an address with
 * no entry yields NaN in the source, which the next connection treats as
 * unset; here it leaves the entry absent, which behaves the same.
 */
module Connections {
  import opened Wrappers
  import opened Protocol

  /** With an allowlist, a connection needs an origin (non-empty) that is listed. */
  predicate OriginOk(allowed: seq<string>, origin: Option<string>) {
    |allowed| == 0 || (origin.Some? && origin.value != "" && origin.value in allowed)
  }

  function CountOf(cnt: map<string, int>, ip: string): int {
    if ip in cnt then cnt[ip] else 0
  }

  /** Every entry of the table is a positive count. */
  predicate CountsPositive(cnt: map<string, int>) {
    forall ip :: ip in cnt ==> cnt[ip] >= 1
  }

  /** The table after a connection from `ip` passed the rate limit: its count goes up by one. */
  function Admit(cnt: map<string, int>, ip: string): (r: map<string, int>)
    ensures CountOf(r, ip) == CountOf(cnt, ip) + 1
    ensures forall a :: a != ip ==> CountOf(r, a) == CountOf(cnt, a)
  {
    cnt[ip := CountOf(cnt, ip) + 1]
  }

  /** The admitted connection is turned away when it takes the count past five. */
  predicate OverLimit(cnt: map<string, int>, ip: string) {
    CountOf(Admit(cnt, ip), ip) > MAX_CONCURRENT
  }

  /** `handleClose`: one less for `ip`, and the entry is dropped at zero. */
  function Release(cnt: map<string, int>, ip: string): (r: map<string, int>)
    ensures CountsPositive(cnt) ==> CountsPositive(r)
    ensures CountsPositive(cnt) ==> CountOf(r, ip) == if CountOf(cnt, ip) == 0 then 0 else CountOf(cnt, ip) - 1
    ensures forall a :: a != ip ==> CountOf(r, a) == CountOf(cnt, a)
  {
    if ip !in cnt then cnt
    else if cnt[ip] - 1 <= 0 then cnt - {ip}
    else cnt[ip := cnt[ip] - 1]
  }

  /** A connection is refused exactly when five are already counted for its address. */
  lemma OverLimitIff(cnt: map<string, int>, ip: string)
    ensures OverLimit(cnt, ip) <==> CountOf(cnt, ip) >= MAX_CONCURRENT
  {
  }

  /** Counting a connection and then its close gives back the table it started from. */
  lemma AdmitThenRelease(cnt: map<string, int>, ip: string)
    requires CountsPositive(cnt)
    ensures Release(Admit(cnt, ip), ip) == cnt
  {
    if ip in cnt {
      assert Release(Admit(cnt, ip), ip) == cnt[ip := cnt[ip]];
    } else {
      assert Admit(cnt, ip) - {ip} == cnt;
    }
  }

  /** Admitting keeps every count positive. */
  lemma AdmitPositive(cnt: map<string, int>, ip: string)
    requires CountsPositive(cnt)
    ensures CountsPositive(Admit(cnt, ip))
  {
  }

  /**
   * The close of a connection that was turned away before it was counted
   * (bad origin, rate limit) still takes one off its address. With five
   * connections of `ip` open, such a close lets a sixth one in.
   */
  lemma UncountedCloseFreesSlot(cnt: map<string, int>, ip: string)
    requires CountsPositive(cnt) && CountOf(cnt, ip) == MAX_CONCURRENT
    ensures OverLimit(cnt, ip)
    ensures !OverLimit(Release(cnt, ip), ip)
    ensures CountOf(Admit(Release(cnt, ip), ip), ip) == MAX_CONCURRENT
  {
  }
}
