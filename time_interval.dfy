/** The widget's two due-date tests. Each compares a due instant with one
    local-day boundary; the boundaries are read off the calendar and the
    clock, so here they are parameters, in seconds since the epoch. */
module TimeInterval {

  /** The start of the current local day and of the next one (24 hours
      later, or 23 or 25 across a daylight-saving change). */
  datatype Day = Day(startOfToday: int, startOfTomorrow: int)

  /** The next day starts after this one. */
  predicate WellOrdered(day: Day) {
    day.startOfToday < day.startOfTomorrow
  }

  /** `isBeforeToday`: due strictly before today's midnight. */
  predicate IsBeforeToday(t: int, day: Day) {
    t < day.startOfToday
  }

  /** `isTodayOrEarlier`: due strictly before tomorrow's midnight. */
  predicate IsTodayOrEarlier(t: int, day: Day) {
    t < day.startOfTomorrow
  }

  /** Both tests are strict: today's midnight is "today or earlier" but not
      "before today", and tomorrow's midnight is neither. */
  lemma DayEdges(day: Day)
    requires WellOrdered(day)
    ensures !IsBeforeToday(day.startOfToday, day) && IsTodayOrEarlier(day.startOfToday, day)
    ensures !IsBeforeToday(day.startOfTomorrow, day) && !IsTodayOrEarlier(day.startOfTomorrow, day)
  {
  }

  /** Anything before today is today or earlier; what is today or earlier
      but not before today is due within today. */
  lemma BeforeTodayIsTodayOrEarlier(t: int, day: Day)
    requires WellOrdered(day)
    ensures IsBeforeToday(t, day) ==> IsTodayOrEarlier(t, day)
    ensures IsTodayOrEarlier(t, day) && !IsBeforeToday(t, day) <==> day.startOfToday <= t < day.startOfTomorrow
  {
  }
}
