/**
 * The part of date-fns that the date selector relies on, taken as given.
 *
 * Instants are milliseconds since the epoch, as a JavaScript Date holds them. The
 * calendar itself (day numbers, years, week boundaries in the local time zone and
 * locale) and the textual formatting are parameters: the model never re-implements
 * them, and every property is stated for any calendar, or for any calendar meeting
 * ValidCalendar where week boundaries matter.
 */
module DateFns {

  type Instant = int

  const DayMs: int := 24 * 60 * 60 * 1000
  const WeekMs: int := 7 * DayMs

  /**
   * `day` numbers the local calendar days consecutively (tomorrow is `day + 1`),
   * `year` is the local calendar year, `weekStart` is the first instant of the local
   * week that contains an instant, and `format` renders an instant with a date-fns
   * format pattern such as "dddd".
   */
  datatype Calendar = Calendar(
    day: Instant -> int,
    year: Instant -> int,
    weekStart: Instant -> Instant,
    format: (Instant, string) -> string)

  /** What a well-behaved week function satisfies: each week is WeekMs long and contains whole days. */
  ghost predicate ValidCalendar(cal: Calendar)
  {
    && (forall t :: cal.weekStart(t) <= t < cal.weekStart(t) + WeekMs)
    && (forall t, u :: cal.weekStart(t) <= u < cal.weekStart(t) + WeekMs ==> cal.weekStart(u) == cal.weekStart(t))
    && (forall t, u :: cal.day(t) == cal.day(u) ==> cal.weekStart(t) == cal.weekStart(u))
  }

  // The date-fns predicates, relative to an explicit `now` instead of the system clock.

  predicate IsToday(cal: Calendar, now: Instant, t: Instant)
  {
    cal.day(t) == cal.day(now)
  }

  predicate IsTomorrow(cal: Calendar, now: Instant, t: Instant)
  {
    cal.day(t) == cal.day(now) + 1
  }

  predicate IsThisWeek(cal: Calendar, now: Instant, t: Instant)
  {
    cal.weekStart(t) == cal.weekStart(now)
  }

  predicate IsThisYear(cal: Calendar, now: Instant, t: Instant)
  {
    cal.year(t) == cal.year(now)
  }

  predicate IsAfter(t: Instant, u: Instant)
  {
    t > u
  }

  predicate IsBefore(t: Instant, u: Instant)
  {
    t < u
  }

  /** The last millisecond of the week containing `now`. */
  function EndOfWeek(cal: Calendar, now: Instant): (e: Instant)
    ensures ValidCalendar(cal) ==> now <= e && IsThisWeek(cal, now, e)
    ensures ValidCalendar(cal) ==> forall t :: now <= t <= e ==> IsThisWeek(cal, now, t)
  {
    cal.weekStart(now) + WeekMs - 1
  }

  /** A calendar in UTC whose weeks start every seventh day from the epoch, and whose years are 365 days long. */
  function UniformCalendar(): Calendar
  {
    Calendar(
      t => t / DayMs,
      t => t / (365 * DayMs),
      t => (t / DayMs) / 7 * WeekMs,
      (t, pattern) => pattern)
  }

  /** ValidCalendar can be met: the lemmas that assume it are not vacuous. */
  lemma UniformCalendarIsValid()
    ensures ValidCalendar(UniformCalendar())
  {
    var cal := UniformCalendar();
    forall t
      ensures cal.weekStart(t) <= t < cal.weekStart(t) + WeekMs
    {
      WeekWindow(t);
    }
    forall t, u | cal.weekStart(t) <= u < cal.weekStart(t) + WeekMs
      ensures cal.weekStart(u) == cal.weekStart(t)
    {
      WeekWindow(t);
      WeekWindow(u);
    }
  }

  lemma WeekWindow(t: Instant)
    ensures (t / DayMs) / 7 * WeekMs <= t < (t / DayMs) / 7 * WeekMs + WeekMs
  {
    var d := t / DayMs;
    assert d * DayMs <= t < d * DayMs + DayMs;
    var w := d / 7;
    assert w * 7 <= d < w * 7 + 7;
  }
}
