/**
 * Datetimes in the single local zone of the calendar (core/calendar.py:13-28,
 * 201-222). An instant is a count of microseconds on the local wall clock, the
 * resolution of a Python datetime; its day
 * number counts days from a Monday, so the weekday is the day number modulo 7,
 * as Python's `date.weekday()` is for the proleptic Gregorian ordinal minus one.
 */
module LocalTime {
  import opened Wrappers

  type Instant = int
  type Day = int

  const MICROS_PER_SECOND: int := 1_000_000
  const MICROS_PER_HOUR: int := 3600 * MICROS_PER_SECOND
  const MICROS_PER_DAY: int := 24 * MICROS_PER_HOUR

  /** UTC offset of the local zone, in microseconds: the fixed +01:00 zone of core/calendar.py:20. */
  const LOCAL_OFFSET: int := MICROS_PER_HOUR

  /**
   * A Python datetime: a wall-clock reading in microseconds and, when it is aware,
   * the UTC offset of its zone (`None` for a naive datetime).
   */
  datatype DateTime = DateTime(wall: int, offset: Option<int>)

  /** A `date` or a `datetime`, as `_normalize_to_date` accepts either. */
  datatype DateLike = Date(day: Day) | Timestamp(dt: DateTime)

  /** The absolute moment an aware datetime denotes, in microseconds since the UTC epoch. */
  function Utc(dt: DateTime): int
    requires dt.offset.Some?
  {
    dt.wall - dt.offset.value
  }

  /**
   * `_ensure_timezone`: a naive datetime gets the local zone attached and keeps
   * its wall-clock reading; an aware one is converted to the same moment in the
   * local zone.
   */
  function EnsureTimezone(dt: DateTime): (r: DateTime)
    ensures r.offset == Some(LOCAL_OFFSET)
    ensures dt.offset.None? ==> r.wall == dt.wall
    ensures dt.offset.Some? ==> Utc(r) == Utc(dt)
  {
    match dt.offset
    case None => DateTime(dt.wall, Some(LOCAL_OFFSET))
    case Some(off) => DateTime(dt.wall - off + LOCAL_OFFSET, Some(LOCAL_OFFSET))
  }

  /** The local instant an input datetime is stored as. */
  function LocalInstant(dt: DateTime): Instant {
    EnsureTimezone(dt).wall
  }

  /** Coercing an already local datetime changes nothing. */
  lemma EnsureTimezoneIdempotent(dt: DateTime)
    ensures EnsureTimezone(EnsureTimezone(dt)) == EnsureTimezone(dt)
  {
  }

  /** For aware inputs the local instants are ordered as the moments they denote. */
  lemma LocalInstantMonotonic(a: DateTime, b: DateTime)
    requires a.offset.Some? && b.offset.Some?
    ensures LocalInstant(a) <= LocalInstant(b) <==> Utc(a) <= Utc(b)
  {
  }

  /** The calendar date of a local instant (`datetime.date()`). */
  function DayOf(t: Instant): (d: Day)
    ensures d * MICROS_PER_DAY <= t < (d + 1) * MICROS_PER_DAY
  {
    t / MICROS_PER_DAY
  }

  /** `date.weekday()`: 0 for Monday up to 6 for Sunday. */
  function Weekday(d: Day): (w: int)
    ensures 0 <= w <= 6
  {
    d % 7
  }

  /** `_normalize_to_date`: a datetime's own wall-clock date (no zone conversion), or the date itself. */
  function NormalizeToDate(v: DateLike): (d: Day)
    ensures v.Date? ==> d == v.day
    ensures v.Timestamp? ==> d * MICROS_PER_DAY <= v.dt.wall < (d + 1) * MICROS_PER_DAY
  {
    match v
    case Date(d) => d
    case Timestamp(dt) => DayOf(dt.wall)
  }

  /** A date and any datetime on that date normalise to the same day. */
  lemma NormalizeToDateAgrees(d: Day, dt: DateTime)
    requires d * MICROS_PER_DAY <= dt.wall < (d + 1) * MICROS_PER_DAY
    ensures NormalizeToDate(Timestamp(dt)) == NormalizeToDate(Date(d))
  {
  }

  /** `_week_start`: the Monday on or before `d`. */
  function WeekStart(d: Day): (r: Day)
    ensures Weekday(r) == 0
    ensures 0 <= d - r <= 6
  {
    d - Weekday(d)
  }

  /** Every day of the week that starts at `WeekStart(d)` has that same week start. */
  lemma WeekStartConstantOnWeek(d: Day, e: Day)
    requires WeekStart(d) <= e <= WeekStart(d) + 6
    ensures WeekStart(e) == WeekStart(d)
  {
    var ws := WeekStart(d);
    var q := d / 7;
    assert ws == 7 * q;
    var k := e - ws;
    assert e == 7 * q + k && 0 <= k < 7;
    assert e % 7 == k;
  }

  /** Days in different Monday-based weeks have different week starts. */
  lemma WeekStartSeparatesWeeks(d: Day, e: Day)
    requires e < WeekStart(d) || WeekStart(d) + 6 < e
    ensures WeekStart(e) != WeekStart(d)
  {
  }

  /** A decoded iCalendar DTSTART or DTEND value. */
  datatype IcsValue = DateValue(day: Day) | DateTimeValue(dt: DateTime) | OtherValue

  /**
   * `_as_datetime`: a datetime is coerced to the local zone, a date becomes local
   * midnight of that date, and any other value is refused (`TypeError`).
   */
  function AsDatetime(v: IcsValue): (r: Option<DateTime>)
    ensures r.None? <==> v.OtherValue?
    ensures r.Some? ==> r.value.offset == Some(LOCAL_OFFSET)
    ensures v.DateValue? ==> r.Some? && DayOf(r.value.wall) == v.day && r.value.wall % MICROS_PER_DAY == 0
    ensures v.DateTimeValue? ==> r == Some(EnsureTimezone(v.dt))
  {
    match v
    case DateValue(d) => Some(EnsureTimezone(DateTime(d * MICROS_PER_DAY, None)))
    case DateTimeValue(dt) => Some(EnsureTimezone(dt))
    case OtherValue => None
  }

  /** `dt + timedelta(microseconds=n)`: wall-clock arithmetic in the datetime's own zone. */
  function AddMicros(dt: DateTime, n: int): (r: DateTime)
    ensures r.offset == dt.offset
    ensures LocalInstant(r) == LocalInstant(dt) + n
  {
    dt.(wall := dt.wall + n)
  }
}
