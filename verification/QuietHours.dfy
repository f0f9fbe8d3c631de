/** Quiet hours in Moscow time (notifications.quiet-hours.ts) over integer instants. Day and
    hour of an instant are those of section 21.4.1 of ECMA-262; advancing the day of the
    month by one advances Day(t) by one there. */
module QuietHours {

  const MS_PER_HOUR := 3_600_000
  const MS_PER_DAY := 86_400_000
  const MSK_OFFSET_HOURS := 3
  const QUIET_START_HOUR := 22
  const QUIET_END_HOUR := 9

  function UtcHours(t: int): int {
    (t / MS_PER_HOUR) % 24
  }

  function SetUtcHours(t: int, hours: int): int {
    (t / MS_PER_DAY) * MS_PER_DAY + hours * MS_PER_HOUR
  }

  function MskHour(t: int): int {
    (UtcHours(t) + MSK_OFFSET_HOURS) % 24
  }

  predicate IsQuietHour(t: int) {
    var h := MskHour(t);
    h >= QUIET_START_HOUR || h < QUIET_END_HOUR
  }

  function DeferUntilMorning(t: int): int {
    var next := SetUtcHours(t, 6);
    (if next <= t then next + MS_PER_DAY else next) - t
  }

  /** deferUntilMorning as the source writes it, on a local Date that is adjusted. */
  method ComputeDelay(now: int) returns (delay: int)
    ensures delay == DeferUntilMorning(now)
    ensures 0 < delay <= MS_PER_DAY && (now + delay) % MS_PER_DAY == 6 * MS_PER_HOUR
  {
    var next := now;
    next := SetUtcHours(next, 6);
    if next <= now {
      next := next + MS_PER_DAY;
    }
    delay := next - now;
    LandsOnMorning(now);
  }

  /** The time of the day alone decides: quiet is 19:00 to 06:00 in UTC. */
  lemma QuietByTimeOfDay(t: int)
    ensures IsQuietHour(t) <==> t % MS_PER_DAY >= 19 * MS_PER_HOUR || t % MS_PER_DAY < 6 * MS_PER_HOUR
  {
    var day, rest := t / MS_PER_DAY, t % MS_PER_DAY;
    assert t == 24 * MS_PER_HOUR * day + rest;
    var h := rest / MS_PER_HOUR;
    assert t / MS_PER_HOUR == 24 * day + h;
    assert (24 * day + h) % 24 == h;
  }

  /** For every instant the delay is positive, at most a day, and lands on 06:00:00.000 UTC. */
  lemma LandsOnMorning(t: int)
    ensures 0 < DeferUntilMorning(t) <= MS_PER_DAY
    ensures (t + DeferUntilMorning(t)) % MS_PER_DAY == 6 * MS_PER_HOUR
  {
    var day := t / MS_PER_DAY;
    assert t == day * MS_PER_DAY + t % MS_PER_DAY;
    assert (day * MS_PER_DAY + 6 * MS_PER_HOUR) % MS_PER_DAY == 6 * MS_PER_HOUR;
    assert ((day + 1) * MS_PER_DAY + 6 * MS_PER_HOUR) % MS_PER_DAY == 6 * MS_PER_HOUR;
  }

  /** From a quiet instant the delay is the least positive one that ends outside the quiet
      hours (every instant in between is quiet), and at most eleven hours. */
  lemma LeastDelayOutOfQuiet(t: int)
    requires IsQuietHour(t)
    ensures var d := DeferUntilMorning(t);
      && 0 < d <= 11 * MS_PER_HOUR
      && !IsQuietHour(t + d)
      && forall u :: t < u < t + d ==> IsQuietHour(u)
  {
    var d := DeferUntilMorning(t);
    QuietByTimeOfDay(t);
    LandsOnMorning(t);
    QuietByTimeOfDay(t + d);
    var rest := t % MS_PER_DAY;
    assert d == if rest < 6 * MS_PER_HOUR then 6 * MS_PER_HOUR - rest else 30 * MS_PER_HOUR - rest by {
      assert t == (t / MS_PER_DAY) * MS_PER_DAY + rest;
    }
    forall u | t < u < t + d ensures IsQuietHour(u) {
      QuietByTimeOfDay(u);
      TimeOfDayAfter(t, u - t);
    }
  }

  lemma TimeOfDayAfter(t: int, e: int)
    requires 0 <= e < MS_PER_DAY
    ensures (t + e) % MS_PER_DAY ==
      if t % MS_PER_DAY + e < MS_PER_DAY then t % MS_PER_DAY + e else t % MS_PER_DAY + e - MS_PER_DAY
  {
    var day, rest := t / MS_PER_DAY, t % MS_PER_DAY;
    assert t + e == day * MS_PER_DAY + (rest + e);
    if rest + e < MS_PER_DAY {
      assert (day * MS_PER_DAY + (rest + e)) % MS_PER_DAY == rest + e;
    } else {
      assert t + e == (day + 1) * MS_PER_DAY + (rest + e - MS_PER_DAY);
      assert ((day + 1) * MS_PER_DAY + (rest + e - MS_PER_DAY)) % MS_PER_DAY == rest + e - MS_PER_DAY;
    }
  }
}
