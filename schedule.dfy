/** Clock values and the delay the controller arms its timer with at start-up
    (`CalculateNextSendTime`). */
module Schedule {
  import opened Wrappers
  import opened Text

  /** A local timestamp in whole seconds; day 0 starts at 0. */
  type Time = int

  const SecondsPerDay: int := 86400

  /** The default session length, 5 hours and 1 minute. */
  const DefaultSessionDuration: int := 5 * 3600 + 60

  /** Midnight of the day holding `t` (`DateTime.Today` when `t` is now). */
  function StartOfDay(t: Time): (d: Time)
    ensures d <= t < d + SecondsPerDay && d % SecondsPerDay == 0
  {
    t - t % SecondsPerDay
  }

  /** The hour, minute and second of a time of day, and that they make it up. */
  lemma ClockFields(secs: int)
    requires 0 <= secs < SecondsPerDay
    ensures secs / 3600 < 24 && secs % 3600 / 60 < 60 && secs % 60 < 60
    ensures secs / 3600 * 3600 + secs % 3600 / 60 * 60 + secs % 60 == secs
  {
    assert secs % 3600 == secs % 3600 / 60 * 60 + secs % 60 by {
      assert secs == secs / 3600 * 3600 + secs % 3600;
      assert secs % 3600 % 60 == secs % 60 by {
        assert secs == (secs / 3600 * 60) * 60 + secs % 3600;
      }
    }
  }

  /** The "HH:mm:ss" rendering of `t` used in the outcome texts: the three digit
      pairs read back as the hour, minute and second of `t`'s time of day. */
  function ClockText(t: Time): (s: string)
    ensures |s| == 8 && s[2] == ':' && s[5] == ':'
    ensures ParseNat(s[..2]) == Some(t % SecondsPerDay / 3600)
    ensures ParseNat(s[3..5]) == Some(t % SecondsPerDay % 3600 / 60)
    ensures ParseNat(s[6..]) == Some(t % SecondsPerDay % 60)
  {
    var secs := t % SecondsPerDay;
    ClockFields(secs);
    var hh, mm, ss := TwoDigits(secs / 3600), TwoDigits(secs % 3600 / 60), TwoDigits(secs % 60);
    var r := hh + ":" + mm + ":" + ss;
    assert r[..2] == hh && r[3..5] == mm && r[6..] == ss;
    r
  }

  /** `CalculateNextSendTime`: seconds to wait before the first send after start-up.
      A pending scheduled send wins; otherwise wait for the end of the current
      session, and send at once when nothing was ever sent. An unset session start
      stands for `DateTime.MinValue`, whose session ended long ago. */
  function InitialDelay(now: Time, next: Option<Time>, lastSent: Option<Time>,
                        sessionStart: Option<Time>, duration: int): (d: int)
    ensures d >= 0
  {
    if next.Some? then
      if now >= next.value then 0 else next.value - now
    else if lastSent.None? then 0
    else if sessionStart.None? then 0
    else
      var expiry := sessionStart.value + duration;
      if now >= expiry then 0 else expiry - now
  }

  function Max(a: int, b: int): int {
    if a >= b then a else b
  }

  /** The instant the initial delay aims at, when there is one to wait for. */
  function InitialTarget(next: Option<Time>, lastSent: Option<Time>,
                         sessionStart: Option<Time>, duration: int): Option<Time> {
    if next.Some? then next
    else if lastSent.None? || sessionStart.None? then None
    else Some(sessionStart.value + duration)
  }

  /** The four cases of the initial delay, and that the timer fires exactly at the
      target when that lies ahead and immediately otherwise. */
  lemma InitialDelayCases(now: Time, next: Option<Time>, lastSent: Option<Time>,
                          sessionStart: Option<Time>, duration: int)
    ensures var d := InitialDelay(now, next, lastSent, sessionStart, duration);
      && (next.Some? && next.value <= now ==> d == 0)
      && (next.Some? && next.value > now ==> d == next.value - now)
      && (next.None? && lastSent.None? ==> d == 0)
      && (next.None? && lastSent.Some? && sessionStart.Some? ==>
            d == Max(0, sessionStart.value + duration - now))
      && (match InitialTarget(next, lastSent, sessionStart, duration)
          case None => d == 0
          case Some(target) => now + d == Max(now, target))
      && (d > 0 <==> exists target :: InitialTarget(next, lastSent, sessionStart, duration) == Some(target) && target > now)
  {
    var d := InitialDelay(now, next, lastSent, sessionStart, duration);
    if d > 0 {
      var target := InitialTarget(next, lastSent, sessionStart, duration).value;
      assert target > now;
    }
  }
}
