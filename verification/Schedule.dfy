/** The schedule gate. Times and durations are whole nanoseconds, times counted from the
    Unix epoch; schedules are weekly sets of minutes in UTC. */
module Schedule {

  const MILLISECOND: int := 1_000_000
  const SECOND: int := 1_000_000_000
  const MINUTE: int := 60_000_000_000
  const WEEK: int := 604_800_000_000_000
  const MINUTES_PER_DAY: int := 1440
  const MINUTES_PER_WEEK: int := 10080

  /** The zero time: no last schedule. */
  const ZERO_TIME: int := -62_135_596_800 * SECOND

  /** The minute, hour and weekday fields of a cron schedule whose other fields are `*`. */
  datatype Schedule = Schedule(minutes: set<int>, hours: set<int>, weekdays: set<int>)

  predicate ValidSchedule(s: Schedule)
  {
    && (exists m :: m in s.minutes) && (forall m | m in s.minutes :: 0 <= m < 60)
    && (exists h :: h in s.hours) && (forall h | h in s.hours :: 0 <= h < 24)
    && (exists d :: d in s.weekdays) && (forall d | d in s.weekdays :: 0 <= d < 7)
  }

  /** The minute of the week, Sunday first; the epoch was a Thursday. */
  function MinuteOfWeek(m: int): int {
    (m + 4 * MINUTES_PER_DAY) % MINUTES_PER_WEEK
  }

  predicate IsTickMinute(s: Schedule, m: int)
  {
    var w := MinuteOfWeek(m);
    w / MINUTES_PER_DAY in s.weekdays && w % MINUTES_PER_DAY / 60 in s.hours && w % 60 in s.minutes
  }

  predicate IsTick(s: Schedule, t: int)
  {
    t % MINUTE == 0 && IsTickMinute(s, t / MINUTE)
  }

  lemma MinuteOfWeekParts(d: int, h: int, mi: int)
    requires 0 <= d < 7 && 0 <= h < 24 && 0 <= mi < 60
    ensures var w := d * MINUTES_PER_DAY + h * 60 + mi;
            && 0 <= w < MINUTES_PER_WEEK && w / MINUTES_PER_DAY == d
            && w % MINUTES_PER_DAY / 60 == h && w % 60 == mi
  {
    assert (d * 24 + h) * 60 + mi == d * MINUTES_PER_DAY + h * 60 + mi;
  }

  lemma MinuteOfWeekReached(m: int, w: int)
    requires 0 <= w < MINUTES_PER_WEEK
    ensures MinuteOfWeek(m + (w - MinuteOfWeek(m)) % MINUTES_PER_WEEK) == w
  {
  }

  const HOUR: int := 3_600_000_000_000
  const DAY: int := 86_400_000_000_000

  /** The minute of the week, from the days, hours and minutes since the epoch. */
  lemma MinuteOfWeekByCalendar(m: int)
    ensures MinuteOfWeek(m) / MINUTES_PER_DAY == (m / 1440 + 4) % 7
    ensures MinuteOfWeek(m) % MINUTES_PER_DAY / 60 == m / 60 % 24
    ensures MinuteOfWeek(m) % 60 == m % 60
  {
    var day, rest := m / 1440, m % 1440;
    var week, weekday := (day + 4) / 7, (day + 4) % 7;
    assert m + 4 * MINUTES_PER_DAY == week * MINUTES_PER_WEEK + (weekday * MINUTES_PER_DAY + rest);
    assert MinuteOfWeek(m) == weekday * MINUTES_PER_DAY + rest;
    assert m / 60 == day * 24 + rest / 60;
  }

  lemma UnitsOf(t: int)
    requires t % MINUTE == 0
    ensures t / DAY == t / MINUTE / 1440 && t / HOUR == t / MINUTE / 60
  {
    assert t == t / MINUTE * MINUTE;
  }

  /** The calendar: a tick is a whole minute whose weekday (the epoch was a Thursday, day 4),
      hour and minute the schedule all names. */
  lemma TickByCalendarIff(s: Schedule, t: int)
    ensures IsTick(s, t) <==>
            t % MINUTE == 0 && (t / DAY + 4) % 7 in s.weekdays && t / HOUR % 24 in s.hours && t / MINUTE % 60 in s.minutes
  {
    MinuteOfWeekByCalendar(t / MINUTE);
    if t % MINUTE == 0 { UnitsOf(t); }
  }

  /** Midnight of Monday 5 January 1970 is a tick exactly of the schedules that name Monday,
      hour 0 and minute 0. */
  lemma FirstMondayIsMonday(s: Schedule)
    ensures IsTick(s, 4 * DAY) <==> 1 in s.weekdays && 0 in s.hours && 0 in s.minutes
  {
    TickByCalendarIff(s, 4 * DAY);
  }

  /** Any week, started at any minute, holds a tick. */
  lemma EveryWeekHasATick(s: Schedule, m: int)
    requires ValidSchedule(s)
    ensures exists x :: m <= x < m + MINUTES_PER_WEEK && IsTickMinute(s, x)
  {
    var d :| d in s.weekdays;
    var h :| h in s.hours;
    var mi :| mi in s.minutes;
    var w := d * MINUTES_PER_DAY + h * 60 + mi;
    MinuteOfWeekParts(d, h, mi);
    MinuteOfWeekReached(m, w);
    assert IsTickMinute(s, m + (w - MinuteOfWeek(m)) % MINUTES_PER_WEEK);
  }

  /** The first tick minute at or after `m`. */
  function NextMinute(s: Schedule, m: int, bound: nat): (n: int)
    requires exists x :: m <= x < m + bound && IsTickMinute(s, x)
    ensures m <= n < m + bound && IsTickMinute(s, n)
    ensures forall x | m <= x < n :: !IsTickMinute(s, x)
    decreases bound
  {
    if IsTickMinute(s, m) then m else NextMinute(s, m + 1, bound - 1)
  }

  /** The least tick strictly after `t`; it is at most a week away. */
  function Next(s: Schedule, t: int): (n: int)
    requires ValidSchedule(s)
    ensures IsTick(s, n) && t < n <= t + WEEK
    ensures forall x | t < x < n :: !IsTick(s, x)
  {
    var m := t / MINUTE + 1;
    EveryWeekHasATick(s, m);
    var n := NextMinute(s, m, MINUTES_PER_WEEK);
    assert n * MINUTE / MINUTE == n;
    n * MINUTE
  }

  function IsTimeInDelta(t1: int, t2: int, delta: int): bool
  {
    var diff := if t1 < t2 then t2 - t1 else t1 - t2;
    diff / MILLISECOND <= delta / MILLISECOND
  }

  /** What the gate decides: execute or not, the next schedule, the requeue delay. */
  datatype Gate = Gate(execute: bool, next: int, requeueAfter: int)

  /** The tick of the current operation the gate compares with now. */
  function GateTick(sleepDelta: int, current: Schedule, last: int, now: int): int
    requires ValidSchedule(current)
  {
    var delta := sleepDelta * SECOND;
    var earliest := if last != ZERO_TIME then last else now - delta;
    var tick := Next(current, earliest);
    if earliest == last && tick < now && !IsTimeInDelta(tick, now, delta) then
      Next(current, now - delta)
    else
      tick
  }

  function GetNextSchedule(sleepDelta: int, current: Schedule, following: Schedule, last: int, now: int): Gate
    requires ValidSchedule(current) && ValidSchedule(following)
  {
    var delta := sleepDelta * SECOND;
    var tick := GateTick(sleepDelta, current, last, now);
    var execute := IsTimeInDelta(now, tick, delta);
    var next := if execute then Next(following, now + delta) else tick;
    Gate(execute, next, next - now)
  }

  /** The delay after a sleep that found nothing to do: past the wake-up, to the sleep
      after it. */
  function SkipWakeUpIfSleepNotPerformed(current: Schedule, next: int, now: int): int
    requires ValidSchedule(current)
  {
    Next(current, next) - now
  }

  /** A stored timestamp keeps whole seconds. */
  function TruncateToSecond(t: int): int { t - t % SECOND }

  // ---------------------------------------------------------------- the gate

  lemma InDeltaIff(t1: int, t2: int, sleepDelta: int)
    ensures IsTimeInDelta(t1, t2, sleepDelta * SECOND) <==>
            -sleepDelta * SECOND - MILLISECOND < t1 - t2 < sleepDelta * SECOND + MILLISECOND
  {
    assert sleepDelta * SECOND / MILLISECOND == sleepDelta * 1000;
  }

  /** Some tick after the last schedule lies in the window around now. */
  ghost predicate TickInWindow(current: Schedule, last: int, lo: int, hi: int)
  {
    exists t :: lo < t < hi && IsTick(current, t) && (last != ZERO_TIME ==> last < t)
  }

  /** Where the gate's tick lies: after the last schedule, never more than the truncated
      delta in the past, and before every other candidate. */
  lemma GateTickPosition(sleepDelta: int, current: Schedule, last: int, now: int)
    requires ValidSchedule(current) && sleepDelta >= 0
    ensures var delta := sleepDelta * SECOND; var tick := GateTick(sleepDelta, current, last, now);
            && IsTick(current, tick)
            && (last != ZERO_TIME ==> last < tick)
            && now - delta - MILLISECOND < tick
            && (tick <= now - delta ==> last != ZERO_TIME && tick == Next(current, last))
            && (forall t | IsTick(current, t) && now - delta < t && (last != ZERO_TIME ==> last < t) :: tick <= t)
            && (last != ZERO_TIME && now - delta - MILLISECOND < Next(current, last) ==> tick == Next(current, last))
  {
    var delta := sleepDelta * SECOND;
    var earliest := if last != ZERO_TIME then last else now - delta;
    InDeltaIff(Next(current, earliest), now, sleepDelta);
  }

  /** Sound and complete: the gate opens exactly when a tick of the current operation, later
      than the last schedule, is less than delta in the past and at most delta (up to the
      truncated millisecond) in the future; or the first tick after the last schedule is
      exactly delta in the past, up to that millisecond. */
  lemma GateIff(sleepDelta: int, current: Schedule, following: Schedule, last: int, now: int)
    requires ValidSchedule(current) && ValidSchedule(following) && sleepDelta >= 0
    ensures var delta := sleepDelta * SECOND;
            GetNextSchedule(sleepDelta, current, following, last, now).execute <==>
            || TickInWindow(current, last, now - delta, now + delta + MILLISECOND)
            || (last != ZERO_TIME && now - delta - MILLISECOND < Next(current, last) <= now - delta)
  {
    var delta := sleepDelta * SECOND;
    var tick := GateTick(sleepDelta, current, last, now);
    GateTickPosition(sleepDelta, current, last, now);
    InDeltaIff(now, tick, sleepDelta);
  }

  /** No tick is passed over. A closed gate comes back at the first tick of the current
      operation that is due: later than the last schedule and not as far back as delta. An open
      one comes back at the first tick of the following operation later than delta from now. */
  lemma GateAimsAtFirst(sleepDelta: int, current: Schedule, following: Schedule, last: int, now: int)
    requires ValidSchedule(current) && ValidSchedule(following) && sleepDelta >= 0
    ensures var delta := sleepDelta * SECOND; var gate := GetNextSchedule(sleepDelta, current, following, last, now);
            var aim := now + gate.requeueAfter;
            && now + delta < aim
            && (!gate.execute ==>
                  && IsTick(current, aim) && (last != ZERO_TIME ==> last < aim)
                  && forall t | IsTick(current, t) && now - delta < t && (last != ZERO_TIME ==> last < t) :: aim <= t)
            && (gate.execute ==>
                  IsTick(following, aim) && forall t | IsTick(following, t) && now + delta < t :: aim <= t)
  {
    GateTickPosition(sleepDelta, current, last, now);
    InDeltaIff(now, GateTick(sleepDelta, current, last, now), sleepDelta);
  }

  /** A stored timestamp is the last whole second. */
  lemma TruncationIsLastSecond(t: int)
    ensures TruncateToSecond(t) % SECOND == 0 && TruncateToSecond(t) <= t < TruncateToSecond(t) + SECOND
  {
  }

  /** The requeue delay is more than delta and at most a week plus delta. */
  lemma RequeueBound(sleepDelta: int, current: Schedule, following: Schedule, last: int, now: int)
    requires ValidSchedule(current) && ValidSchedule(following) && sleepDelta >= 0
    requires last <= now
    ensures sleepDelta * SECOND
          < GetNextSchedule(sleepDelta, current, following, last, now).requeueAfter
          <= WEEK + sleepDelta * SECOND
  {
    var tick := GateTick(sleepDelta, current, last, now);
    GateTickPosition(sleepDelta, current, last, now);
    InDeltaIff(now, tick, sleepDelta);
  }

  /** With nothing to put to sleep it is at most two weeks plus delta. */
  lemma SkippedRequeueBound(sleepDelta: int, current: Schedule, following: Schedule, last: int, now: int)
    requires ValidSchedule(current) && ValidSchedule(following) && sleepDelta >= 0
    requires GetNextSchedule(sleepDelta, current, following, last, now).execute
    ensures var g := GetNextSchedule(sleepDelta, current, following, last, now);
            g.requeueAfter < SkipWakeUpIfSleepNotPerformed(current, g.next, now) <= 2 * WEEK + sleepDelta * SECOND
  {
  }
}
