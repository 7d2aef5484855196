/**
 * Proleptic Gregorian dates, times of day, locations and instants, the way Go's time package
 * represents them. An instant is a count of nanoseconds since 1970-01-01T00:00:00Z; a Go
 * time.Time is an instant together with the location it is displayed in.
 */
module Civil {

  // ---------------------------------------------------------------------------
  // Dates
  // ---------------------------------------------------------------------------

  datatype Date = Date(year: int, month: int, day: int)

  /** The Gregorian leap-year rule. */
  predicate IsLeap(year: int)
  {
    year % 4 == 0 && (year % 100 != 0 || year % 400 == 0)
  }

  /** Go's daysIn: the length of a month, February depending on the year. */
  function DaysIn(year: int, month: int): (n: int)
    requires 1 <= month <= 12
    ensures 28 <= n <= 31
    ensures n == 29 <==> month == 2 && IsLeap(year)
  {
    if month == 2 then (if IsLeap(year) then 29 else 28)
    else if month == 4 || month == 6 || month == 9 || month == 11 then 30
    else 31
  }

  predicate ValidDate(d: Date)
  {
    1 <= d.month <= 12 && 1 <= d.day <= DaysIn(d.year, d.month)
  }

  /** A date that exists in the calendar. */
  type CivilDate = d: Date | ValidDate(d) witness Date(1970, 1, 1)

  /** Calendar order. */
  predicate Before(a: Date, b: Date)
  {
    a.year < b.year
    || (a.year == b.year && a.month < b.month)
    || (a.year == b.year && a.month == b.month && a.day < b.day)
  }

  /** The following calendar day: what Go's t.AddDate(0, 0, 1) does to the date of t. */
  function NextDay(d: CivilDate): (r: CivilDate)
    ensures Before(d, r)
  {
    if d.day < DaysIn(d.year, d.month) then Date(d.year, d.month, d.day + 1)
    else if d.month < 12 then Date(d.year, d.month + 1, 1)
    else Date(d.year + 1, 1, 1)
  }

  /** Leap years in the years before `year` (counted from an arbitrary origin, floor-based). */
  function LeapsBefore(year: int): int
  {
    (year - 1) / 4 - (year - 1) / 100 + (year - 1) / 400
  }

  /** Days of the year before the first of `month`. */
  function DaysBeforeMonth(year: int, month: int): (n: int)
    requires 1 <= month <= 12
    ensures month == 1 ==> n == 0
    ensures month > 1 ==> n == DaysBeforeMonth(year, month - 1) + DaysIn(year, month - 1)
  {
    if month == 1 then 0 else DaysBeforeMonth(year, month - 1) + DaysIn(year, month - 1)
  }

  /** The day number of a date, day 0 being 1970-01-01. */
  function DaysFromCivil(d: CivilDate): int
  {
    365 * (d.year - 1970) + LeapsBefore(d.year) - LeapsBefore(1970)
      + DaysBeforeMonth(d.year, d.month) + d.day - 1
  }

  /** Each year adds one leap day exactly when it is a leap year. */
  lemma LeapsBeforeStep(year: int)
    ensures LeapsBefore(year + 1) == LeapsBefore(year) + (if IsLeap(year) then 1 else 0)
  {
    DivStep(year, 4);
    DivStep(year, 100);
    DivStep(year, 400);
    if year % 400 == 0 {
      MultipleOfFactor(year, 100, 4);
    }
    if year % 100 == 0 {
      MultipleOfFactor(year, 4, 25);
    }
  }

  /** A multiple of m * n is a multiple of m. */
  lemma MultipleOfFactor(a: int, m: int, n: int)
    requires m > 0 && n > 0 && a % (m * n) == 0
    ensures a % m == 0
  {
    var c := a / (m * n);
    assert a == c * (m * n);
    assert a == (c * n) * m;
    DivUnique(a, m, c * n, 0);
  }

  /** Floor division by k steps up by one exactly at the multiples of k. */
  lemma DivStep(year: int, k: int)
    requires k > 0
    ensures year / k - (year - 1) / k == if year % k == 0 then 1 else 0
  {
    var q, r := year / k, year % k;
    assert year == q * k + r && 0 <= r < k;
    if r == 0 {
      DivUnique(year - 1, k, q - 1, k - 1);
    } else {
      DivUnique(year - 1, k, q, r - 1);
    }
  }

  /** The quotient of floor division is the only one that leaves a remainder in [0, k). */
  lemma DivUnique(a: int, k: int, q: int, r: int)
    requires k > 0 && a == q * k + r && 0 <= r < k
    ensures a / k == q
  {
    var q', r' := a / k, a % k;
    assert (q - q') * k == r' - r;
    if q > q' {
      MulAtLeast(q - q', k);
    } else if q < q' {
      MulAtLeast(q' - q, k);
    }
  }

  /** A positive multiple of k is at least k. */
  lemma MulAtLeast(m: int, k: int)
    requires m >= 1 && k > 0
    ensures m * k >= k
  {
    assert m * k == (m - 1) * k + k;
    assert (m - 1) * k >= 0;
  }

  /** A whole year of days. */
  lemma DaysInYear(year: int)
    ensures DaysBeforeMonth(year, 12) + DaysIn(year, 12) == if IsLeap(year) then 366 else 365
  {
  }

  /** NextDay really is the next day: it advances the day number by exactly one. */
  lemma NextDayCounts(d: CivilDate)
    ensures DaysFromCivil(NextDay(d)) == DaysFromCivil(d) + 1
  {
    if d.day == DaysIn(d.year, d.month) && d.month == 12 {
      LeapsBeforeStep(d.year);
      DaysInYear(d.year);
    }
  }

  // ---------------------------------------------------------------------------
  // Times of day
  // ---------------------------------------------------------------------------

  datatype TimeOfDay = TimeOfDay(hour: int, minute: int, second: int)

  predicate ValidClock(c: TimeOfDay)
  {
    0 <= c.hour <= 23 && 0 <= c.minute <= 59 && 0 <= c.second <= 59
  }

  function SecondsIntoDay(c: TimeOfDay): (s: int)
    ensures ValidClock(c) ==> 0 <= s < 86400
  {
    c.hour * 3600 + c.minute * 60 + c.second
  }

  // ---------------------------------------------------------------------------
  // Durations and instants
  // ---------------------------------------------------------------------------

  const Nanosecond: int := 1
  const Microsecond: int := 1000
  const Millisecond: int := 1000_000
  const Second: int := 1000_000_000
  const Minute: int := 60 * Second
  const Hour: int := 60 * Minute

  /**
   * A *time.Location: UTC, the process's Local zone, a zone loaded by name from the zone
   * database, or a fixed offset east of UTC in seconds (the unnamed zones time.Parse creates).
   */
  datatype Zone = Utc | Local | Named(name: string) | Fixed(offsetSeconds: int)

  /** Location.String(). */
  function ZoneName(z: Zone): (s: string)
    ensures z.Named? ==> s == z.name
    ensures z.Fixed? ==> s == ""
  {
    match z
    case Utc => "UTC"
    case Local => "Local"
    case Named(name) => name
    case Fixed(_) => ""
  }

  /** A time.Time: an instant and the location it is read in. */
  datatype Time = Time(unixNanos: int, zone: Zone)

  /** The instant of a UTC date and time of day, with a nanosecond part. */
  function UtcInstant(d: CivilDate, c: TimeOfDay, nanos: int): int
  {
    (DaysFromCivil(d) * 86400 + SecondsIntoDay(c)) * 1000_000_000 + nanos
  }

  /** The day number of January 1 of year 1, the date of the zero time.Time (DaysOfYearOne). */
  const YearOneDay: int := -719162

  /** The instant of the zero time.Time, January 1 of year 1, 00:00:00 UTC. */
  const ZeroUnixNanos: int := YearOneDay * 86400 * 1000_000_000

  lemma DaysOfYearOne()
    ensures DaysFromCivil(Date(1, 1, 1)) == YearOneDay
  {
    assert LeapsBefore(1) == 0;
    assert LeapsBefore(1970) == 477;
    assert DaysBeforeMonth(1, 1) == 0;
  }

  /** Time.IsZero: whether t is the zero instant, in whatever location. */
  predicate IsZero(t: Time)
  {
    t.unixNanos == ZeroUnixNanos
  }

  /** Time.Add: the same location, d nanoseconds later. */
  function Add(t: Time, d: int): (r: Time)
    ensures r.zone == t.zone
    ensures r.unixNanos - t.unixNanos == d
  {
    Time(t.unixNanos + d, t.zone)
  }
}
