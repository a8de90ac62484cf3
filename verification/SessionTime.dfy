/** When a session expires. Times are in microseconds, as the system clock reports them. */
module SessionTime {
  import opened Machine

  /** The part of a session that decides about its expiry. */
  datatype Timing = Timing(lastAccess: nat, timeout: nat, expireCount: int)
  {
    predicate Valid() { timeout < TWO32 }
  }

  /** A pinned session is touched whenever its timeout is asked for. */
  function Asked(t: Timing, clock: nat): Timing {
    if t.expireCount != 0 then t.(lastAccess := clock) else t
  }

  /** Nanoseconds until the session may go, five seconds of grace included. */
  function Remaining(t: Timing, now: nat): int {
    t.lastAccess * 1000 + t.timeout * 1_000_000_000 + 5_000_000_000 - now * 1000
  }

  /** next_timeout for a session just asked at clock. */
  function NextTimeout(t: Timing, now: nat, clock: nat): int {
    var left := Remaining(Asked(t, clock), now);
    if left > 0 then Int32(left / 1_000_000) else 0
  }

  predicate Expired(t: Timing, now: nat, clock: nat) {
    NextTimeout(t, now, clock) == 0
  }

  /** The milliseconds left fit the integer they are stored in. */
  predicate FitsInt(t: Timing, now: nat, clock: nat) {
    Remaining(Asked(t, clock), now) < 0x8000_0000 * 1_000_000
  }

  /** For times that fit: the whole milliseconds left, and expiry when less than one is. */
  lemma TimeoutWhenItFits(t: Timing, now: nat, clock: nat)
    requires FitsInt(t, now, clock)
    ensures var left := Remaining(Asked(t, clock), now);
            && NextTimeout(t, now, clock) == (if left > 0 then left / 1_000_000 else 0)
            && NextTimeout(t, now, clock) >= 0
            && (Expired(t, now, clock) <==> left < 1_000_000)
  {
  }

  /** In the terms of the caller: a session that nothing pins expires, to the millisecond, five
      seconds after its timeout since it was last touched; a pinned one is touched when it is
      asked. */
  lemma ExpiryTime(t: Timing, now: nat, clock: nat)
    requires FitsInt(t, now, clock)
    ensures var touched := if t.expireCount == 0 then t.lastAccess else clock;
            Expired(t, now, clock) <==> now + 1_000 > touched + (t.timeout + 5) * 1_000_000
    ensures var touched := if t.expireCount == 0 then t.lastAccess else clock;
            now <= touched + (t.timeout + 5) * 1_000_000 ==>
              NextTimeout(t, now, clock) == (touched + (t.timeout + 5) * 1_000_000 - now) / 1_000
  {
    TimeoutWhenItFits(t, now, clock);
    var touched := if t.expireCount == 0 then t.lastAccess else clock;
    var left := touched + (t.timeout + 5) * 1_000_000 - now;
    assert Remaining(Asked(t, clock), now) == 1_000 * left;
    if left >= 0 {
      Thousandth(left);
    }
  }

  lemma Thousandth(x: nat)
    ensures (1_000 * x) / 1_000_000 == x / 1_000
  {
  }

  /** Without that bound: a session counts as expired exactly when less than a millisecond
      is left, or the milliseconds left are a multiple of 2^32. */
  lemma ExpiredExactly(t: Timing, now: nat, clock: nat)
    ensures var left := Remaining(Asked(t, clock), now);
            Expired(t, now, clock) <==> left < 1_000_000 || (left / 1_000_000) % TWO32 == 0
  {
    var left := Remaining(Asked(t, clock), now);
    if 0 < left < 1_000_000 {
      assert left / 1_000_000 == 0;
    }
  }

  /** The milliseconds left have bit 31 set. */
  predicate Negative(t: Timing, now: nat, clock: nat) {
    var left := Remaining(Asked(t, clock), now);
    left > 0 && (left / 1_000_000) % TWO32 >= 0x8000_0000
  }

  lemma NegativeExactly(t: Timing, now: nat, clock: nat)
    ensures Negative(t, now, clock) <==> NextTimeout(t, now, clock) < 0
  {
  }

  /** A pinned session whose clock did not go back since now was read never expires. */
  lemma PinnedNeverExpires(t: Timing, now: nat, clock: nat)
    requires t.expireCount != 0 && clock >= now && FitsInt(t, now, clock)
    ensures !Expired(t, now, clock)
  {
    ExpiredExactly(t, now, clock);
    TimeoutWhenItFits(t, now, clock);
  }

  /** A timeout of 4294962 seconds makes even a pinned, just touched session expire when
      the clock is read 296 ms after now. */
  lemma LongTimeoutExpiresAtOnce()
    ensures Timing(0, 4294962, 1).Valid() && Expired(Timing(0, 4294962, 1), 0, 296_000)
  {
  }
}
