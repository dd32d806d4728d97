/** The server's local calendar over a stretch of days. Days are numbered from
    the start of the stretch; their first instants (in nanoseconds) come from
    the time zone, so days of 23 or 25 hours are covered. Go's time package is
    not part of this model: what is used of it is stated here. */
module Calendar {
  const SECOND: int := 1_000_000_000

  /** Day d runs from midnights[d] to midnights[d + 1] and prints as dates[d]. */
  datatype Calendar = Calendar(midnights: seq<int>, dates: seq<string>)

  ghost predicate DatesRegular(cal: Calendar) {
    forall j, k | 0 <= j < k < |cal.dates| :: cal.dates[j] != cal.dates[k]
  }

  ghost predicate Regular(cal: Calendar) {
    && |cal.midnights| == |cal.dates| + 1
    && (forall j, k | 0 <= j < k < |cal.midnights| :: cal.midnights[j] < cal.midnights[k])
    && DatesRegular(cal)
  }

  predicate InCalendar(cal: Calendar, d: int) {
    0 <= d < |cal.dates|
  }

  /** The calendar covers the window [from, to). */
  predicate Spans(cal: Calendar, from: int, to: int) {
    |cal.midnights| > 1 && cal.midnights[0] <= from < cal.midnights[|cal.midnights| - 1]
    && to <= cal.midnights[|cal.midnights| - 1]
  }

  /** The day an instant falls on. */
  function DayOf(midnights: seq<int>, t: int): (d: nat)
    requires |midnights| > 1 && midnights[0] <= t < midnights[|midnights| - 1]
    ensures d + 1 < |midnights| && midnights[d] <= t < midnights[d + 1]
  {
    if midnights[|midnights| - 2] <= t then |midnights| - 2 else DayOf(midnights[..|midnights| - 1], t)
  }
}
