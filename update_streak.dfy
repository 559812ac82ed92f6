/** The daily study streak of shared/lib/update-streak.ts. Days are Korean
    calendar days (UTC+9, no daylight saving); an instant is milliseconds since
    the epoch and a calendar date is its day number, which stands for the
    "YYYY-MM-DD" string the source compares (that string determines the day). */
module Streak {
  import opened Common

  const KstOffsetMs: int := 9 * HourMs

  /** `toKSTDateString`: the UTC calendar date of t + 9 hours. */
  function KstDay(t: int): (d: int)
    ensures d * DayMs <= t + KstOffsetMs < d * DayMs + DayMs
  {
    UtcDay(t + KstOffsetMs)
  }

  /** The source's way of naming yesterday: the shifted instant truncated to
      UTC midnight, 24 hours back, and the UTC date of that. */
  function YesterdayKst(now: int): int
  {
    var todayMidnight := UtcDay(now + KstOffsetMs) * DayMs;
    UtcDay(todayMidnight - DayMs)
  }

  /** The construction above does name the Korean day before today. */
  lemma YesterdayIsPreviousDay(now: int)
    ensures YesterdayKst(now) == KstDay(now) - 1
  {
    var d := KstDay(now);
    var y := UtcDay(d * DayMs - DayMs);
    assert y * DayMs <= (d - 1) * DayMs < y * DayMs + DayMs;
    UniqueDay(y, d - 1);
  }

  lemma UniqueDay(y: int, e: int)
    requires y * DayMs <= e * DayMs < y * DayMs + DayMs
    ensures y == e
  {
  }

  /** Two instants fall on the same Korean day exactly when they lie in the
      same 24-hour window starting at 15:00 UTC. */
  lemma SameKstDay(t1: int, t2: int, d: int)
    ensures KstDay(t1) == d && KstDay(t2) == d <==>
      && d * DayMs - KstOffsetMs <= t1 < d * DayMs + DayMs - KstOffsetMs
      && d * DayMs - KstOffsetMs <= t2 < d * DayMs + DayMs - KstOffsetMs
  {
    if d * DayMs - KstOffsetMs <= t1 < d * DayMs + DayMs - KstOffsetMs {
      UniqueDay(KstDay(t1), d);
    }
    if d * DayMs - KstOffsetMs <= t2 < d * DayMs + DayMs - KstOffsetMs {
      UniqueDay(KstDay(t2), d);
    }
  }

  datatype StreakUpdate = StreakUpdate(lastStudyDate: int, currentStreak: int, longestStreak: int)

  /** The streak fields a profile stores (`lastStudyDate` may be missing). */
  datatype StreakState = StreakState(lastStudyDate: Option<int>, currentStreak: int, longestStreak: int)

  /** `calculateStreakUpdate`. */
  function CalculateStreakUpdate(lastStudyDate: Option<int>, currentStreak: int, longestStreak: int, now: int): StreakUpdate
  {
    if lastStudyDate.None? then
      StreakUpdate(now, 1, Max(longestStreak, 1))
    else if KstDay(lastStudyDate.value) == KstDay(now) then
      StreakUpdate(now, currentStreak, longestStreak)
    else if KstDay(lastStudyDate.value) == YesterdayKst(now) then
      StreakUpdate(now, currentStreak + 1, Max(longestStreak, currentStreak + 1))
    else
      StreakUpdate(now, 1, Max(longestStreak, 1))
  }

  /** The four rules, by the Korean day of the last study relative to today. */
  lemma StreakRules(lastStudyDate: Option<int>, currentStreak: int, longestStreak: int, now: int)
    ensures var r := CalculateStreakUpdate(lastStudyDate, currentStreak, longestStreak, now);
      && r.lastStudyDate == now
      && (lastStudyDate.None? ==>
            r.currentStreak == 1 && r.longestStreak == Max(longestStreak, 1))
      && (lastStudyDate.Some? && KstDay(lastStudyDate.value) == KstDay(now) ==>
            r.currentStreak == currentStreak && r.longestStreak == longestStreak)
      && (lastStudyDate.Some? && KstDay(lastStudyDate.value) == KstDay(now) - 1 ==>
            r.currentStreak == currentStreak + 1 && r.longestStreak == Max(longestStreak, currentStreak + 1))
      && (lastStudyDate.Some? && KstDay(lastStudyDate.value) != KstDay(now)
          && KstDay(lastStudyDate.value) != KstDay(now) - 1 ==>
            r.currentStreak == 1 && r.longestStreak == Max(longestStreak, 1))
  {
    YesterdayIsPreviousDay(now);
  }

  /** The longest streak never decreases, and a profile whose current streak
      does not exceed its longest keeps that relation. */
  lemma StreakInvariant(lastStudyDate: Option<int>, currentStreak: int, longestStreak: int, now: int)
    requires 0 <= currentStreak <= longestStreak
    ensures var r := CalculateStreakUpdate(lastStudyDate, currentStreak, longestStreak, now);
      && r.longestStreak >= longestStreak
      && 0 <= r.currentStreak <= r.longestStreak
  {
  }

  /** Studying again on the same Korean day changes nothing but the instant:
      the streak is counted once per day. */
  lemma {:induction false} SameDayIsIdempotent(lastStudyDate: Option<int>, currentStreak: int, longestStreak: int, now: int, later: int)
    requires now <= later && KstDay(later) == KstDay(now)
    ensures var r := CalculateStreakUpdate(lastStudyDate, currentStreak, longestStreak, now);
      CalculateStreakUpdate(Some(r.lastStudyDate), r.currentStreak, r.longestStreak, later)
        == StreakUpdate(later, r.currentStreak, r.longestStreak)
  {
  }

  /** Studying on two consecutive Korean days raises the streak by one each day. */
  lemma ConsecutiveDaysExtend(last: int, currentStreak: int, longestStreak: int, now: int)
    requires KstDay(last) == KstDay(now) - 1
    ensures CalculateStreakUpdate(Some(last), currentStreak, longestStreak, now).currentStreak == currentStreak + 1
  {
    YesterdayIsPreviousDay(now);
  }

  /** `getStreakUpdateData`: a missing profile reads as no last date and zero streaks. */
  function GetStreakUpdateData(profile: Option<StreakState>, now: int): (r: StreakUpdate)
    ensures profile.None? ==> r == StreakUpdate(now, 1, 1)
  {
    var state := if profile.Some? then profile.value else StreakState(None, 0, 0);
    CalculateStreakUpdate(state.lastStudyDate, state.currentStreak, state.longestStreak, now)
  }
}
