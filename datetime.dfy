/**
 * calgo's date/time resolver: ParseTime turns what the user typed into an instant in a time
 * zone, trying relative forms ("in 2 hours", "tomorrow at 9:00"), then a bare time of day,
 * then general-purpose date parsing; ParseDuration reads an event length.
 *
 * The clock, the TZ variable and the zone database are a World passed in; the general-purpose
 * parsers of the last stage (the dateparse library and time.ParseInLocation) are a Fallback.
 */
module DateTime {
  import opened Wrappers
  import opened Text
  import opened Civil
  import opened Patterns
  import GoDuration

  // ---------------------------------------------------------------------------
  // Errors and the outside world
  // ---------------------------------------------------------------------------

  /** The two sentinel errors every failure of ParseTime wraps. */
  datatype TimeErrorKind = InvalidDateFormat | InvalidTimezone

  /** The errors ParseTime returns, each wrapping one sentinel error. */
  datatype TimeError =
    | EmptyInput                                 // blank input
    | UnknownZone(name: string, fromEnv: bool)   // getLocation could not load the zone
    | CouldNotParse(input: string)               // every stage failed

  /** The sentinel error errors.Is finds in e. */
  function Kind(e: TimeError): TimeErrorKind
  {
    if e.UnknownZone? then InvalidTimezone else InvalidDateFormat
  }

  /** The sentinel's text, as the wrapping %w prints it, with the colon and space after it. */
  function Head(k: TimeErrorKind): string
  {
    match k
    case InvalidDateFormat => "invalid date/time format: "
    case InvalidTimezone => "invalid timezone: "
  }

  /** The text after the sentinel when every stage fails: the input, quoted, and some hints. */
  function FailureText(input: string): (t: string)
    ensures |t| > 17 + |input| && t[0] == 'c' && t[16] == '\''
    ensures t[17..17 + |input|] == input && t[17 + |input|] == '\''
  {
    var rest := input + ("'" + ". Try formats like '2024-01-15 14:00', '14:00', 'tomorrow 14:00', or 'in 2 hours'");
    var t := "could not parse '" + rest;
    assert t[17..] == rest;
    t
  }

  /** What went wrong, after the sentinel's text. */
  function Detail(e: TimeError): (d: string)
    ensures e.EmptyInput? ==> |d| > 0 && d[0] == 'e'
    ensures e.CouldNotParse? ==> |d| > 0 && d[0] == 'c'
  {
    match e
    case EmptyInput => "empty input"
    case UnknownZone(name, fromEnv) => name + if fromEnv then " (from TZ environment variable)" else ""
    case CouldNotParse(input) => FailureText(input)
  }

  /** The text of e: the sentinel's text, then what went wrong. */
  function Message(e: TimeError): string
  {
    Head(Kind(e)) + Detail(e)
  }

  /** The message of a total failure quotes the input, right after "could not parse". */
  lemma FailureQuotesInput(s: string)
    ensures var m := Message(CouldNotParse(s));
      |m| > 43 + |s| && m[42] == '\'' && m[43..43 + |s|] == s && m[43 + |s|] == '\''
  {
    var head, t := Head(InvalidDateFormat), FailureText(s);
    assert |head| == 26;
    var m := head + t;
    assert m[43..43 + |s|] == t[17..17 + |s|];
  }

  /** What the resolver reads from its environment. */
  datatype World = World(
    now: int,                                        // time.Now(), in Unix nanoseconds
    tz: string,                                      // os.Getenv("TZ")
    hasZone: string -> bool,                         // the zone database knows this name
    dateIn: (int, Zone) -> CivilDate,                // the calendar date of an instant in a zone
    instantIn: (CivilDate, TimeOfDay, Zone) -> int)  // time.Date(y, m, d, h, mi, s, 0, loc)

  /** The general-purpose parsers the last stage hands the input to. */
  datatype Fallback = Fallback(
    dateparse: (string, Zone) -> Option<Time>,       // dateparse.ParseIn(s, loc)
    layout: (string, string, Zone) -> Option<Time>)  // time.ParseInLocation(layout, s, loc)

  // ---------------------------------------------------------------------------
  // Time zones
  // ---------------------------------------------------------------------------

  predicate ContainsDotDot(s: string)
  {
    exists i :: 0 <= i < |s| - 1 && s[i] == '.' && s[i + 1] == '.'
  }

  /**
   * time.LoadLocation: "" and "UTC" are UTC, "Local" is the local zone, a name that climbs out
   * of the database directory is refused, anything else must be in the database.
   */
  function LoadLocation(name: string, hasZone: string -> bool): (r: Option<Zone>)
    ensures name == "" || name == "UTC" ==> r == Some(Utc)
    ensures name == "Local" ==> r == Some(Local)
    ensures r.Some? ==> ZoneName(r.value) == if name == "" then "UTC" else name
    ensures r.Some? && r.value.Named? ==> hasZone(name) && !ContainsDotDot(name)
  {
    if name == "" || name == "UTC" then Some(Utc)
    else if name == "Local" then Some(Local)
    else if ContainsDotDot(name) || name[0] == '/' || name[0] == '\\' then None
    else if hasZone(name) then Some(Named(name))
    else None
  }

  /**
   * getLocation: the explicit zone name, else the TZ variable, else the local zone. The zone
   * found is named after the first of these that is set, and the lookup of that name is the
   * only way to fail.
   */
  function GetLocation(timezone: string, w: World): (r: Result<Zone, TimeError>)
    ensures var source := if timezone != "" then timezone else w.tz;
      r.Err? <==> source != "" && LoadLocation(source, w.hasZone).None?
    ensures r.Err? ==> r.error == UnknownZone(if timezone != "" then timezone else w.tz, timezone == "")
    ensures r.Ok? ==> ZoneName(r.value) == if timezone != "" then timezone else if w.tz != "" then w.tz else "Local"
  {
    if timezone != "" then
      match LoadLocation(timezone, w.hasZone)
      case Some(loc) => Ok(loc)
      case None => Err(UnknownZone(timezone, false))
    else if w.tz != "" then
      match LoadLocation(w.tz, w.hasZone)
      case Some(loc) => Ok(loc)
      case None => Err(UnknownZone(w.tz, true))
    else Ok(Local)
  }

  /** An explicit zone decides alone: the TZ variable is never looked at, even when it is invalid. */
  lemma ExplicitZoneIgnoresTz(timezone: string, w: World, tz: string)
    requires timezone != ""
    ensures GetLocation(timezone, w) == GetLocation(timezone, w.(tz := tz))
    ensures GetLocation(timezone, w).Ok? ==> ZoneName(GetLocation(timezone, w).value) == timezone
  {
  }

  // ---------------------------------------------------------------------------
  // Clock values
  // ---------------------------------------------------------------------------

  /** strconv.Atoi on one or two digits is their decimal value. */
  lemma SmallAtoi(s: string)
    requires 1 <= |s| <= 2 && AllDigits(s)
    ensures DecimalValue(s) < 100 && Atoi(s) == Some(DecimalValue(s))
  {
    DecimalValueBound(s);
    assert Pow10(|s|) <= 100;
  }

  lemma ClockAtoi(c: ClockText)
    requires IsClockText(c)
    ensures Atoi(c.hour) == Some(DecimalValue(c.hour)) && Atoi(c.minute) == Some(DecimalValue(c.minute))
    ensures c.second != [] ==> Atoi(c.second) == Some(DecimalValue(c.second))
  {
    SmallAtoi(c.hour);
    SmallAtoi(c.minute);
    if c.second != [] { SmallAtoi(c.second); }
  }

  /** Hour, minute and optional second of a clock match, each read by Atoi and range-checked. */
  function ClockValue(c: ClockText): (r: Option<TimeOfDay>)
    requires IsClockText(c)
    ensures r.Some? <==>
      DecimalValue(c.hour) <= 23 && DecimalValue(c.minute) <= 59
      && (c.second == [] || DecimalValue(c.second) <= 59)
    ensures r.Some? ==>
      && ValidClock(r.value)
      && r.value.hour == DecimalValue(c.hour) && r.value.minute == DecimalValue(c.minute)
      && r.value.second == (if c.second == [] then 0 else DecimalValue(c.second))
  {
    ClockAtoi(c);
    var hour := Atoi(c.hour);
    var minute := Atoi(c.minute);
    var second := if c.second == [] then Some(0) else Atoi(c.second);
    if hour.None? || hour.value < 0 || hour.value > 23 then None
    else if minute.None? || minute.value < 0 || minute.value > 59 then None
    else if second.None? || second.value < 0 || second.value > 59 then None
    else Some(TimeOfDay(hour.value, minute.value, second.value))
  }

  /** The date n days after d: t.AddDate(0, 0, n) as far as the date of t is concerned. */
  function AddDays(d: CivilDate, n: nat): (r: CivilDate)
    ensures DaysFromCivil(r) == DaysFromCivil(d) + n
    decreases n
  {
    if n == 0 then d
    else
      NextDayCounts(d);
      AddDays(NextDay(d), n - 1)
  }

  // ---------------------------------------------------------------------------
  // Relative forms
  // ---------------------------------------------------------------------------

  /** The length a unit word of the relative pattern stands for. */
  function InUnit(unit: string): (r: Option<int>)
    ensures IsInUnit(unit) ==>
      r == Some(if unit == "hour" || unit == "hours" || unit == "hr" || unit == "hrs" then Hour else Minute)
  {
    InUnitPrefixes(unit);
    if HasPrefix(unit, "hour") || HasPrefix(unit, "hr") then Some(Hour)
    else if HasPrefix(unit, "min") then Some(Minute)
    else None
  }

  /** Which of the prefixes Go's switch tests each unit word has. */
  lemma InUnitPrefixes(unit: string)
    ensures IsInUnit(unit) ==>
      && (HasPrefix(unit, "hour") || HasPrefix(unit, "hr") <==>
            unit == "hour" || unit == "hours" || unit == "hr" || unit == "hrs")
      && HasPrefix(unit, "min") == (unit == "min" || unit == "mins" || unit == "minute" || unit == "minutes")
  {
    if unit == "hour" || unit == "hours" {
      assert unit[..4] == "hour";
      assert unit[..3][0] == 'h';
    } else if unit == "hr" || unit == "hrs" {
      assert unit[..2] == "hr";
      assert |unit| >= 3 ==> unit[..3][0] == 'h';
    } else if unit == "min" || unit == "mins" || unit == "minute" || unit == "minutes" {
      assert unit[..3] == "min";
      assert unit[..2][0] == 'm';
      assert |unit| >= 4 ==> unit[..4][0] == 'm';
    }
  }

  /**
   * parseInDuration as written: the amount is multiplied by the unit in int64 arithmetic, which
   * wraps around when the product is too large.
   */
  function ParseInDurationAsWritten(s: string, now: Time): (r: Option<Time>)
    ensures r.Some? ==> MatchIn(s).Some? && r.value.zone == now.zone
    ensures ParseInDuration(s, now).Some? ==> r == ParseInDuration(s, now)
  {
    match MatchIn(s)
    case None => None
    case Some(m) =>
      var amount, unit := Atoi(m.amount), InUnit(m.unit);
      if amount.None? || unit.None? then None
      else Some(Add(now, WrapInt64(amount.value * unit.value)))
  }

  /**
   * parseInDuration, with an amount whose duration does not fit in time.Duration treated as a
   * non-match: "in N hours" is never earlier than now.
   */
  function ParseInDuration(s: string, now: Time): (r: Option<Time>)
    ensures r.Some? ==> r.value.zone == now.zone && r.value.unixNanos >= now.unixNanos
    ensures r.Some? ==> MatchIn(s).Some?
  {
    match MatchIn(s)
    case None => None
    case Some(m) =>
      var amount, unit := Atoi(m.amount), InUnit(m.unit);
      if amount.None? || unit.None? || !InInt64(amount.value * unit.value) then None
      else
        MulNonNegative(amount.value, unit.value);
        Some(Add(now, amount.value * unit.value))
  }

  lemma MulNonNegative(a: int, b: int)
    requires a >= 0 && b >= 0
    ensures a * b >= 0
  {
  }

  /** The unit an "in" phrase names, in nanoseconds. */
  function InUnitNanos(m: InText): int
  {
    if m.unit == "hour" || m.unit == "hours" || m.unit == "hr" || m.unit == "hrs" then Hour else Minute
  }

  /** As written, "in N <unit>" adds N units wrapped around to int64. */
  lemma InDurationAsWrittenOf(m: InText, now: Time)
    requires IsInText(m) && DecimalValue(m.amount) <= MaxInt64
    ensures ParseInDurationAsWritten(InString(m), now)
      == Some(Add(now, WrapInt64(DecimalValue(m.amount) * InUnitNanos(m))))
  {
    MatchInComplete(m);
  }

  /**
   * An amount Atoi accepts whose duration does not fit in int64: as written, the wrapped product
   * moves the result to another instant; the corrected parseInDuration refuses it.
   */
  lemma InDurationWraps(m: InText, now: Time)
    requires IsInText(m) && DecimalValue(m.amount) <= MaxInt64
    requires !InInt64(DecimalValue(m.amount) * InUnitNanos(m))
    ensures ParseInDurationAsWritten(InString(m), now).Some?
    ensures ParseInDurationAsWritten(InString(m), now).value.unixNanos
      != now.unixNanos + DecimalValue(m.amount) * InUnitNanos(m)
    ensures ParseInDuration(InString(m), now).None?
  {
    InDurationAsWrittenOf(m, now);
    InDurationOf(m, now);
    MulNonNegative(DecimalValue(m.amount), InUnitNanos(m));
  }

  /**
   * The smallest hour count that wraps: 2562047 hours fit in int64, 2562048 hours
   * (9223372800000000000 ns) do not, and "in 2562048 hours" lands before now.
   */
  lemma SmallestInWrap(m: InText, now: Time)
    requires IsInText(m) && DecimalValue(m.amount) == 2562048 && m.unit == "hours"
    ensures InInt64(2562047 * Hour) && !InInt64(2562048 * Hour)
    ensures ParseInDurationAsWritten(InString(m), now) == Some(Add(now, -9223371273709551616))
    ensures ParseInDurationAsWritten(InString(m), now).value.unixNanos < now.unixNanos
    ensures ParseInDuration(InString(m), now).None?
  {
    assert WrapInt64(2562048 * Hour) == -9223371273709551616;
    InDurationAsWrittenOf(m, now);
    InDurationWraps(m, now);
  }

  /** "in N <unit>" is now plus N hours or N minutes, whenever that duration fits in int64. */
  lemma InDurationOf(m: InText, now: Time)
    requires IsInText(m)
    ensures var d := DecimalValue(m.amount) * InUnitNanos(m);
      ParseInDuration(InString(m), now) == if d <= MaxInt64 then Some(Add(now, d)) else None
  {
    MatchInComplete(m);
    var n := DecimalValue(m.amount);
    MulNonNegative(n, InUnitNanos(m));
    if n > MaxInt64 {
      assert n * InUnitNanos(m) >= n by { MulMonotone(n, InUnitNanos(m)); }
    }
  }

  lemma MulMonotone(n: nat, unit: int)
    requires unit >= 1
    ensures n * unit >= n
  {
  }

  /** parseDayWithTime: the clock of a day match on the date daysOffset days after today. */
  function ParseDayWithTime(s: string, now: Time, daysOffset: nat, loc: Zone, w: World): (r: Option<Time>)
    ensures r.Some? ==> r.value.zone == loc && MatchDay(s).Some?
  {
    match MatchDay(s)
    case None => None
    case Some(d) =>
      match ClockValue(d.clock)
      case None => None
      case Some(clock) =>
        var date := AddDays(w.dateIn(now.unixNanos, now.zone), daysOffset);
        Some(Time(w.instantIn(date, clock, loc), loc))
  }

  /** parseRelative: the input is lowercased, then "in …", "today …" and "tomorrow …" are tried. */
  function ParseRelative(s: string, loc: Zone, w: World): (r: Option<Time>)
    ensures r.Some? ==> r.value.zone == loc
    ensures r.Some? ==> var lower := ToLower(s);
      HasPrefix(lower, "in ") || HasPrefix(lower, "today") || HasPrefix(lower, "tomorrow")
    ensures r.Some? && HasPrefix(ToLower(s), "in ") ==> r.value.unixNanos >= w.now
  {
    var lower := ToLower(s);
    var now := Time(w.now, loc);
    InExcludesDays(lower);
    var viaIn := if HasPrefix(lower, "in ") then ParseInDuration(lower, now) else None;
    var viaToday := if HasPrefix(lower, "today") then ParseDayWithTime(lower, now, 0, loc, w) else None;
    var viaTomorrow := if HasPrefix(lower, "tomorrow") then ParseDayWithTime(lower, now, 1, loc, w) else None;
    if viaIn.Some? then viaIn
    else if viaToday.Some? then viaToday
    else viaTomorrow
  }

  /** A text that starts with "in " starts with neither day word. */
  lemma InExcludesDays(s: string)
    ensures HasPrefix(s, "in ") ==> !HasPrefix(s, "today") && !HasPrefix(s, "tomorrow")
  {
    if HasPrefix(s, "in ") {
      assert s[0] == "in "[0];
    }
  }

  /** parseTimeOnly: a bare clock, on today's date in the zone. */
  function ParseTimeOnly(s: string, loc: Zone, w: World): (r: Option<Time>)
    ensures r.Some? ==> MatchClock(s).Some? && ClockValue(MatchClock(s).value).Some?
  {
    match MatchClock(s)
    case None => None
    case Some(c) =>
      match ClockValue(c)
      case None => None
      case Some(clock) => Some(Time(w.instantIn(w.dateIn(w.now, loc), clock, loc), loc))
  }

  // ---------------------------------------------------------------------------
  // The general-purpose stage
  // ---------------------------------------------------------------------------

  /** The layouts tried, in order, after dateparse fails. */
  const Layouts: seq<string> := [
    "2006-01-02T15:04:05", "2006-01-02T15:04",
    "2006-01-02 15:04:05", "2006-01-02 15:04",
    "2006/01/02 15:04:05", "2006/01/02 15:04",
    "01/02/2006 15:04:05", "01/02/2006 15:04",
    "02/01/2006 15:04:05", "02/01/2006 15:04",
    "Jan 2, 2006 15:04:05", "Jan 2, 2006 15:04",
    "January 2, 2006 15:04:05", "January 2, 2006 15:04",
    "2006-01-02"]

  /** None of the layouts reads s. */
  predicate NoneReads(layouts: seq<string>, s: string, loc: Zone, f: Fallback)
  {
    layouts == [] || (f.layout(layouts[0], s, loc).None? && NoneReads(layouts[1..], s, loc, f))
  }

  /** NoneReads means what it says: every layout fails on s. */
  lemma {:induction false} NoneReadsEach(layouts: seq<string>, s: string, loc: Zone, f: Fallback)
    ensures NoneReads(layouts, s, loc, f) <==> forall j :: 0 <= j < |layouts| ==> f.layout(layouts[j], s, loc).None?
  {
    if layouts != [] {
      NoneReadsEach(layouts[1..], s, loc, f);
      assert forall j :: 1 <= j < |layouts| ==> layouts[j] == layouts[1..][j - 1];
    }
  }

  /** The first layout that reads s, by its index in the list, and what it reads. */
  function FirstLayout(layouts: seq<string>, s: string, loc: Zone, f: Fallback): (r: Option<(nat, Time)>)
    ensures r.Some? ==> r.value.0 < |layouts| && f.layout(layouts[r.value.0], s, loc) == Some(r.value.1)
  {
    if layouts == [] then None
    else
      match f.layout(layouts[0], s, loc)
      case Some(t) => Some((0, t))
      case None =>
        var rest := FirstLayout(layouts[1..], s, loc, f);
        if rest.None? then None else Some((rest.value.0 + 1, rest.value.1))
  }

  /** The layout FirstLayout picks is the first that reads s; it finds none only when none does. */
  lemma {:induction false} FirstLayoutIsFirst(layouts: seq<string>, s: string, loc: Zone, f: Fallback)
    ensures var r := FirstLayout(layouts, s, loc, f);
      r.Some? ==> NoneReads(layouts[..r.value.0], s, loc, f)
    ensures FirstLayout(layouts, s, loc, f).None? <==> NoneReads(layouts, s, loc, f)
  {
    if layouts != [] && f.layout(layouts[0], s, loc).None? {
      FirstLayoutIsFirst(layouts[1..], s, loc, f);
      var rest := FirstLayout(layouts[1..], s, loc, f);
      if rest.Some? {
        assert layouts[..rest.value.0 + 1][1..] == layouts[1..][..rest.value.0];
      }
    }
  }

  /** parseStandard: dateparse first, then each layout in order; an error when all fail. */
  function ParseStandard(s: string, loc: Zone, f: Fallback): (r: Result<Time, TimeError>)
    ensures r.Err? ==> r.error == CouldNotParse(s)
  {
    match f.dateparse(s, loc)
    case Some(t) => Ok(t)
    case None =>
      match FirstLayout(Layouts, s, loc, f)
      case Some((_, t)) => Ok(t)
      case None => Err(CouldNotParse(s))
  }

  /** The general-purpose stage fails exactly when dateparse and every layout fail. */
  lemma StandardFails(s: string, loc: Zone, f: Fallback)
    ensures ParseStandard(s, loc, f).Err? <==> f.dateparse(s, loc).None? && NoneReads(Layouts, s, loc, f)
  {
    FirstLayoutIsFirst(Layouts, s, loc, f);
  }

  // ---------------------------------------------------------------------------
  // ParseTime
  // ---------------------------------------------------------------------------

  /**
   * The three stages on trimmed, non-empty input in a resolved zone: relative forms, then a bare
   * clock, then the general-purpose parsers; the first success wins.
   */
  function ParseInZone(s: string, loc: Zone, w: World, f: Fallback): (r: Result<Time, TimeError>)
    ensures r.Err? ==> r.error == CouldNotParse(s)
  {
    match ParseRelative(s, loc, w)
    case Some(t) => Ok(t)
    case None =>
      match ParseTimeOnly(s, loc, w)
      case Some(t) => Ok(t)
      case None => ParseStandard(s, loc, f)
  }

  /** ParseTime: blank input is refused before the zone is resolved, then the stages run. */
  function ParseTime(input: string, timezone: string, w: World, f: Fallback): (r: Result<Time, TimeError>)
    ensures r == Err(EmptyInput) <==> AllSpace(input)
    ensures r.Err? && !AllSpace(input) ==>
      r.error == if GetLocation(timezone, w).Err? then GetLocation(timezone, w).error else CouldNotParse(TrimSpace(input))
  {
    TrimSpaceEmpty(input);
    var s := TrimSpace(input);
    if s == [] then Err(EmptyInput)
    else
      match GetLocation(timezone, w)
      case Err(e) => Err(e)
      case Ok(loc) => ParseInZone(s, loc, w, f)
  }

  // ---------------------------------------------------------------------------
  // What ParseTime promises
  // ---------------------------------------------------------------------------

  /** Blank input is refused with the empty-input error, whatever the zone (an invalid one included). */
  lemma BlankInputRefused(input: string, timezone: string, w: World, f: Fallback)
    requires AllSpace(input)
    ensures ParseTime(input, timezone, w, f) == Err(EmptyInput)
  {
    TrimSpaceEmpty(input);
  }

  /** No other input gets the empty-input error. */
  lemma OnlyBlankInputIsEmpty(input: string, timezone: string, w: World, f: Fallback)
    requires !AllSpace(input)
    ensures ParseTime(input, timezone, w, f) != Err(EmptyInput)
  {
    TrimSpaceEmpty(input);
    var g := GetLocation(timezone, w);
    assert g.Err? ==> g.error.UnknownZone?;
  }

  /** With non-blank input, an unusable zone is the error, before any stage runs. */
  lemma ZoneErrorSecond(input: string, timezone: string, w: World, f: Fallback)
    requires !AllSpace(input) && GetLocation(timezone, w).Err?
    ensures ParseTime(input, timezone, w, f) == Err(GetLocation(timezone, w).error)
    ensures Kind(ParseTime(input, timezone, w, f).error) == InvalidTimezone
  {
    TrimSpaceEmpty(input);
  }

  /**
   * Once a relative form or a bare clock reads the input, the general-purpose parsers are not
   * consulted: any two of them give the same result.
   */
  lemma EarlyStagesWin(input: string, timezone: string, w: World, f1: Fallback, f2: Fallback)
    requires TrimSpace(input) != [] && GetLocation(timezone, w).Ok?
    requires var s, loc := TrimSpace(input), GetLocation(timezone, w).value;
      ParseRelative(s, loc, w).Some? || ParseTimeOnly(s, loc, w).Some?
    ensures ParseTime(input, timezone, w, f1).Ok?
    ensures ParseTime(input, timezone, w, f1) == ParseTime(input, timezone, w, f2)
  {
  }

  /** A bare clock starts with a digit, so no relative form can read it. */
  lemma ClockIsNotRelative(s: string, loc: Zone, w: World)
    requires MatchClock(s).Some?
    ensures ParseRelative(s, loc, w).None?
  {
    var c := MatchClock(s).value;
    assert s[0] == c.hour[0];
    var lower := ToLower(s);
    assert IsDigit(lower[0]);
    assert !HasPrefix(lower, "in ") by { if |lower| >= 3 { assert lower[..3][0] == lower[0]; } }
    assert !HasPrefix(lower, "today") by { if |lower| >= 5 { assert lower[..5][0] == lower[0]; } }
    assert !HasPrefix(lower, "tomorrow") by { if |lower| >= 8 { assert lower[..8][0] == lower[0]; } }
  }

  /** Once lowercased, text starting with "in " is only ever read as an "in" phrase. */
  lemma RelativeIn(s: string, loc: Zone, w: World)
    requires HasPrefix(ToLower(s), "in ")
    ensures ParseRelative(s, loc, w) == ParseInDuration(ToLower(s), Time(w.now, loc))
  {
    var lower := ToLower(s);
    assert lower[0] == lower[..3][0] == 'i';
    assert !HasPrefix(lower, "today") by { if |lower| >= 5 { assert lower[..5][0] == lower[0]; } }
    assert !HasPrefix(lower, "tomorrow") by { if |lower| >= 8 { assert lower[..8][0] == lower[0]; } }
  }

  /** Text starting with "today" is read on today's date, text starting with "tomorrow" on the next. */
  lemma RelativeDay(s: string, loc: Zone, w: World)
    requires HasPrefix(ToLower(s), "today") || HasPrefix(ToLower(s), "tomorrow")
    ensures var lower, now := ToLower(s), Time(w.now, loc);
      ParseRelative(s, loc, w)
      == ParseDayWithTime(lower, now, if HasPrefix(lower, "today") then 0 else 1, loc, w)
  {
    var lower := ToLower(s);
    assert lower[0] == 't' by {
      if HasPrefix(lower, "today") { assert lower[..5][0] == lower[0]; }
      else { assert lower[..8][0] == lower[0]; }
    }
    assert !HasPrefix(lower, "in ") by { if |lower| >= 3 { assert lower[..3][0] == lower[0]; } }
    if HasPrefix(lower, "tomorrow") {
      assert lower[2] == lower[..8][2] == 'm';
      assert !HasPrefix(lower, "today") by { assert lower[..5][2] == lower[2]; }
    }
  }

  /** The pieces of an "in" phrase with a plain space after "in", resolved in a zone. */
  lemma InInZone(m: InText, loc: Zone, w: World, f: Fallback)
    requires IsInText(m) && m.gap[0] == ' '
    requires DecimalValue(m.amount) * InUnitNanos(m) <= MaxInt64
    ensures ParseInZone(InString(m), loc, w, f)
      == Ok(Add(Time(w.now, loc), DecimalValue(m.amount) * InUnitNanos(m)))
  {
    var s := InString(m);
    InTextNoUpper(m);
    ToLowerNoUpper(s);
    assert s[..3] == "in ";
    RelativeIn(s, loc, w);
    InDurationOf(m, Time(w.now, loc));
  }

  /** "in N <unit>" given to ParseTime: now plus N hours or minutes, in the resolved zone. */
  lemma InResolves(m: InText, timezone: string, w: World, f: Fallback)
    requires IsInText(m) && m.gap[0] == ' ' && GetLocation(timezone, w).Ok?
    requires DecimalValue(m.amount) * InUnitNanos(m) <= MaxInt64
    ensures var loc := GetLocation(timezone, w).value;
      ParseTime(InString(m), timezone, w, f)
      == Ok(Add(Time(w.now, loc), DecimalValue(m.amount) * InUnitNanos(m)))
  {
    var s := InString(m);
    assert s[|s| - 1] == m.unit[|m.unit| - 1];
    assert !IsSpace(s[|s| - 1]);
    TrimSpaceNoop(s);
    InInZone(m, GetLocation(timezone, w).value, w, f);
  }

  /** A day phrase, resolved in a zone: the clock on today's or tomorrow's date there. */
  lemma DayInZone(d: DayText, clock: TimeOfDay, loc: Zone, w: World, f: Fallback)
    requires IsDayText(d) && ClockValue(d.clock) == Some(clock)
    ensures var date := AddDays(w.dateIn(w.now, loc), if d.word == "today" then 0 else 1);
      ParseInZone(DayString(d), loc, w, f) == Ok(Time(w.instantIn(date, clock, loc), loc))
  {
    var s := DayString(d);
    DayTextNoUpper(d);
    ToLowerNoUpper(s);
    assert s[..|d.word|] == d.word;
    assert HasPrefix(s, "today") <==> d.word == "today" by {
      if d.word == "tomorrow" { assert s[..5][2] == 'm'; }
    }
    RelativeDay(s, loc, w);
    MatchDayComplete(d);
  }

  /** "today|tomorrow [at] H:MM[:SS]" given to ParseTime, with the clock in range. */
  lemma DayResolves(d: DayText, clock: TimeOfDay, timezone: string, w: World, f: Fallback)
    requires IsDayText(d) && ClockValue(d.clock) == Some(clock) && GetLocation(timezone, w).Ok?
    ensures var loc := GetLocation(timezone, w).value;
      var date := AddDays(w.dateIn(w.now, loc), if d.word == "today" then 0 else 1);
      ParseTime(DayString(d), timezone, w, f) == Ok(Time(w.instantIn(date, clock, loc), loc))
  {
    var s := DayString(d);
    ClockEdges(d.clock);
    var cs := ClockString(d.clock);
    assert s[|s| - 1] == cs[|cs| - 1];
    assert s[0] == d.word[0];
    TrimSpaceNoop(s);
    DayInZone(d, clock, GetLocation(timezone, w).value, w, f);
  }

  /** The last character of a clock is a digit. */
  lemma ClockEdges(c: ClockText)
    requires IsClockText(c)
    ensures var s := ClockString(c); |s| > 0 && IsDigit(s[0]) && IsDigit(s[|s| - 1])
  {
    var s := ClockString(c);
    assert s[0] == c.hour[0];
    if c.second == [] {
      assert s[|s| - 1] == c.minute[1];
    } else {
      assert s[|s| - 1] == c.second[1];
    }
  }

  /** "H:MM[:SS]" in range is that time of day on today's date in the zone. */
  lemma TimeOnlyResolves(c: ClockText, clock: TimeOfDay, timezone: string, w: World, f: Fallback)
    requires IsClockText(c) && ClockValue(c) == Some(clock) && GetLocation(timezone, w).Ok?
    ensures var loc := GetLocation(timezone, w).value;
      ParseTime(ClockString(c), timezone, w, f) == Ok(Time(w.instantIn(w.dateIn(w.now, loc), clock, loc), loc))
  {
    var s := ClockString(c);
    ClockEdges(c);
    TrimSpaceNoop(s);
    ClockInZone(c, clock, GetLocation(timezone, w).value, w, f);
  }

  lemma ClockInZone(c: ClockText, clock: TimeOfDay, loc: Zone, w: World, f: Fallback)
    requires IsClockText(c) && ClockValue(c) == Some(clock)
    ensures ParseInZone(ClockString(c), loc, w, f) == Ok(Time(w.instantIn(w.dateIn(w.now, loc), clock, loc), loc))
  {
    MatchClockComplete(c);
    ClockIsNotRelative(ClockString(c), loc, w);
  }

  /** The clock forms Go's tests expect to be refused: an hour, minute or second out of range. */
  lemma OutOfRangeClocks(loc: Zone, w: World)
    ensures ParseTimeOnly("24:00", loc, w).None?
    ensures ParseTimeOnly("14:60", loc, w).None?
    ensures ParseTimeOnly("14:00:60", loc, w).None?
  {
    HourOutOfRange(loc, w);
    MinuteOutOfRange(loc, w);
    SecondOutOfRange(loc, w);
  }

  lemma HourOutOfRange(loc: Zone, w: World)
    ensures ParseTimeOnly("24:00", loc, w).None?
  {
    var c := ClockText("24", "00", "");
    MatchClockComplete(c);
    assert ClockString(c) == "24:00";
    assert DecimalValue("24") == 24;
  }

  lemma MinuteOutOfRange(loc: Zone, w: World)
    ensures ParseTimeOnly("14:60", loc, w).None?
  {
    var c := ClockText("14", "60", "");
    MatchClockComplete(c);
    assert ClockString(c) == "14:60";
    assert DecimalValue("60") == 60;
  }

  lemma SecondOutOfRange(loc: Zone, w: World)
    ensures ParseTimeOnly("14:00:60", loc, w).None?
  {
    var c := ClockText("14", "00", "60");
    MatchClockComplete(c);
    assert ClockString(c) == "14:00:60";
    assert DecimalValue("60") == 60;
  }

  /** A sign is not part of the clock pattern. */
  lemma NegativeHourRefused(loc: Zone, w: World)
    ensures ParseTimeOnly("-1:00", loc, w).None?
  {
    assert SplitDigits("-1:00") == ([], "-1:00");
  }
}
