// The non-blocking periodic soft timer timer_expired (the same code in
// firmware/arch/stm32/hal.h and firmware/arch/unix/hal.h). The expiration
// time is a 64-bit millisecond count in the firmware; here it is a `nat`,
// so the wrap-around the first step guards against never happens, but the
// step itself is kept: it also resets an expiration lying more than one
// period ahead.

module SoftTimer {

  /** The outcome of one poll: whether the timer expired, and the new
      expiration time stored back through the pointer. */
  datatype Poll = Poll(fired: bool, expiration: nat)

  /** The expiration time after the first two steps of a poll: an
      expiration more than one period ahead is reset to 0, and 0 (a timer
      never polled) becomes one period from now. */
  function Armed(t: nat, prd: nat, now: nat): (a: nat)
    ensures a <= now + prd
    ensures t == 0 || now + prd < t ==> a == now + prd
    ensures 0 < t <= now + prd ==> a == t
  {
    var t1 := if now + prd < t then 0 else t;
    if t1 == 0 then now + prd else t1
  }

  /** timer_expired exactly as the firmware writes it. The timer fires
      when the armed expiration is not after `now`; the next expiration
      then keeps the phase (one period after the old one) unless the poll
      is more than a period late, in which case it restarts from `now`. A
      poll exactly one period late keeps the phase and so leaves the
      expiration equal to `now`. */
  function ExpiredAsWritten(t: nat, prd: nat, now: nat): (p: Poll)
    ensures p.fired <==> Armed(t, prd, now) <= now
    ensures !p.fired ==> now < p.expiration <= now + prd && p.expiration == Armed(t, prd, now)
    ensures p.fired ==> now <= p.expiration <= now + prd
    ensures p.fired && now - Armed(t, prd, now) <= prd ==> p.expiration == Armed(t, prd, now) + prd
    ensures p.fired && now - Armed(t, prd, now) > prd ==> p.expiration == now + prd
  {
    var a := Armed(t, prd, now);
    if a > now then Poll(false, a)
    else Poll(true, if now - a > prd then now + prd else a + prd)
  }

  /** The firmware's timer fires twice at the same instant: polled exactly
      one period after an expiration e > 0, it fires and stores `now` as
      the next expiration, so a second poll at the same `now` fires again. */
  lemma ExpiredAsWrittenFiresTwice(e: nat, prd: nat)
    requires e > 0 && prd > 0
    ensures var now := e + prd;
            var p := ExpiredAsWritten(e, prd, now);
            p.fired && p.expiration == now && ExpiredAsWritten(p.expiration, prd, now).fired
  {
  }

  /** The watch's one-second log timer, last due at 1000 ms and polled at
      2000 ms, fires twice in a row. */
  lemma ExpiredAsWrittenFiresTwiceAtTwoSeconds()
    ensures ExpiredAsWritten(1000, 1000, 2000) == Poll(true, 2000)
    ensures ExpiredAsWritten(2000, 1000, 2000).fired
  {
    ExpiredAsWrittenFiresTwice(1000, 1000);
  }

  /** timer_expired as evidently intended: a poll at least one period late
      restarts the schedule from `now`, so the next expiration is always
      after `now` (for a positive period). Otherwise as the firmware. */
  function Expired(t: nat, prd: nat, now: nat): (p: Poll)
    ensures p.fired <==> Armed(t, prd, now) <= now
    ensures !p.fired ==> now < p.expiration <= now + prd && p.expiration == Armed(t, prd, now)
    ensures p.fired ==> now <= p.expiration <= now + prd
    ensures p.fired && prd > 0 ==> now < p.expiration
    ensures p.fired && now - Armed(t, prd, now) < prd ==> p.expiration == Armed(t, prd, now) + prd
    ensures p.fired && now - Armed(t, prd, now) >= prd ==> p.expiration == now + prd
  {
    var a := Armed(t, prd, now);
    if a > now then Poll(false, a)
    else Poll(true, if now - a >= prd then now + prd else a + prd)
  }

  /** With a positive period the corrected timer fires at most once per
      instant: a second poll at the same `now` does not fire. */
  lemma ExpiredAtMostOncePerInstant(t: nat, prd: nat, now: nat)
    requires prd > 0
    ensures var p := Expired(t, prd, now);
            p.fired ==> !Expired(p.expiration, prd, now).fired
  {
  }

  /** The two versions differ only on a poll exactly one period late. */
  lemma ExpiredAgreesExceptOnePeriodLate(t: nat, prd: nat, now: nat)
    ensures Armed(t, prd, now) + prd != now ==> Expired(t, prd, now) == ExpiredAsWritten(t, prd, now)
    ensures Armed(t, prd, now) + prd == now ==>
              Expired(t, prd, now).expiration == now + prd && ExpiredAsWritten(t, prd, now).expiration == now
  {
  }

  /** The first poll of a fresh timer (expiration 0) with a positive period
      does not fire; it schedules the first expiration one period ahead. */
  lemma FirstPollArms(prd: nat, now: nat)
    requires prd > 0
    ensures Expired(0, prd, now) == Poll(false, now + prd)
  {
  }

  /** A timer polled before its expiration keeps it. */
  lemma PendingUnchanged(t: nat, prd: nat, now: nat)
    requires now < t <= now + prd
    ensures Expired(t, prd, now) == Poll(false, t)
  {
  }

  /** Polled on time at every instant, a timer with a positive period fires
      exactly at its expiration and then re-arms one period later: the
      schedule does not drift. */
  lemma FiresOnScheduleWithoutDrift(t: nat, prd: nat)
    requires t > 0 && prd > 0
    ensures Expired(t, prd, t) == Poll(true, t + prd)
    ensures forall now: nat :: t - prd <= now < t ==> !Expired(t, prd, now).fired
  {
  }

  /** timer_expired as the firmware runs it: it rewrites the stored
      expiration in up to three steps and reports whether it expired. */
  method TimerExpired(t0: nat, prd: nat, now: nat) returns (fired: bool, t: nat)
    ensures Poll(fired, t) == ExpiredAsWritten(t0, prd, now)
  {
    t := t0;
    if now + prd < t {
      t := 0;
    }
    if t == 0 {
      t := now + prd;
    }
    if t > now {
      return false, t;
    }
    t := if now - t > prd then now + prd else t + prd;
    fired := true;
  }

  /** The same steps with the corrected comparison: a poll at least one
      period late restarts the schedule from `now`. */
  method TimerExpiredCorrected(t0: nat, prd: nat, now: nat) returns (fired: bool, t: nat)
    ensures Poll(fired, t) == Expired(t0, prd, now)
  {
    t := t0;
    if now + prd < t {
      t := 0;
    }
    if t == 0 {
      t := now + prd;
    }
    if t > now {
      return false, t;
    }
    t := if now - t >= prd then now + prd else t + prd;
    fired := true;
  }
}
