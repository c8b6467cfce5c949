/**
 * The working-hours rule: staff answer in person Monday to Saturday, from
 * 09:00 up to but not including 18:00, Bangkok time. The clock reading is
 * an input here, already converted to the local day of the week and hour.
 */
module Schedule {

  /** Day of the week as moment's `day()` gives it: 0 is Sunday, 6 is Saturday. */
  type Day = d: int | 0 <= d < 7

  /** Hour of the day as moment's `hour()` gives it. */
  type Hour = h: int | 0 <= h < 24

  const Sunday: Day := 0
  const OpenHour: Hour := 9
  const CloseHour: Hour := 18

  /** `isWorkingHours()`: not Sunday, and the hour lies in [OpenHour, CloseHour). */
  predicate IsWorkingHours(day: Day, hour: Hour) {
    day != Sunday && OpenHour <= hour < CloseHour
  }

  /** The edges of the window: 09 is inside, 18 is outside, Sunday is always outside. */
  lemma WindowEdges(day: Day, hour: Hour)
    ensures IsWorkingHours(1, 9) && !IsWorkingHours(1, 8)
    ensures IsWorkingHours(6, 17) && !IsWorkingHours(6, 18)
    ensures !IsWorkingHours(Sunday, hour)
    ensures day != Sunday ==> IsWorkingHours(day, 12)
  {
  }

  // The counts below are a sanity check of the window, not behaviour of the
  // service: they confirm that the rule gives the "Mon-Sat 09-18" schedule.

  /** How many of the hours 0 .. n-1 of `day` are working hours. */
  function OpenHoursBefore(day: Day, n: nat): (c: nat)
    requires n <= 24
    ensures c <= n
  {
    if n == 0 then 0
    else OpenHoursBefore(day, n - 1) + (if IsWorkingHours(day, n - 1) then 1 else 0)
  }

  /** Counting up to `n`: none on Sunday, otherwise the part of [9, 18) below `n`. */
  lemma {:induction false} OpenHoursBeforeCount(day: Day, n: nat)
    requires n <= 24
    ensures OpenHoursBefore(day, n)
         == if day == Sunday || n <= OpenHour then 0
            else if n <= CloseHour then n - OpenHour
            else CloseHour - OpenHour
  {
    if n > 0 {
      OpenHoursBeforeCount(day, n - 1);
    }
  }

  /** Nine staffed hours on each working day, fifty-four in a week. */
  lemma WeeklyOpenHours()
    ensures forall d: Day :: OpenHoursBefore(d, 24) == if d == Sunday then 0 else 9
    ensures OpenHoursBefore(0, 24) + OpenHoursBefore(1, 24) + OpenHoursBefore(2, 24)
          + OpenHoursBefore(3, 24) + OpenHoursBefore(4, 24) + OpenHoursBefore(5, 24)
          + OpenHoursBefore(6, 24) == 54
  {
    forall d: Day ensures OpenHoursBefore(d, 24) == if d == Sunday then 0 else 9 {
      OpenHoursBeforeCount(d, 24);
    }
  }
}
