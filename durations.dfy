/**
 * calgo's ParseDuration, the event length read from the command line: the trimmed text is either
 * a bare integer, read as that many minutes, or anything time.ParseDuration accepts ("1h30m",
 * "90s"). Durations are int64 nanosecond counts, as Go's time.Duration is.
 */
module Durations {
  import opened Wrappers
  import opened Text
  import opened Civil
  import GoDuration

  /** The two failures of ParseDuration. */
  datatype DurationError =
    | EmptyDuration             // blank input
    | InvalidDuration(input: string) // neither an integer nor a Go duration; the trimmed text

  function Message(e: DurationError): string
  {
    match e
    case EmptyDuration => "empty duration"
    case InvalidDuration(input) =>
      "invalid duration '" + (input + ("'" + ": use formats like '30m', '1h', '1h30m', or just '30' for minutes"))
  }

  /** The message of an invalid duration quotes the trimmed input. */
  lemma InvalidQuotesInput(s: string)
    ensures var m := Message(InvalidDuration(s));
      |m| > 18 + |s| && m[17] == '\'' && m[18..18 + |s|] == s && m[18 + |s|] == '\''
  {
    var tail := "'" + ": use formats like '30m', '1h', '1h30m', or just '30' for minutes";
    var rest := s + tail;
    var m := "invalid duration '" + rest;
    assert m[18..] == rest;
    assert m[18..18 + |s|] == rest[..|s|];
    assert m[18 + |s|] == tail[0];
  }

  /**
   * ParseDuration as written: a bare integer n becomes time.Duration(n) * time.Minute, an int64
   * product that wraps around when n minutes do not fit.
   */
  function ParseDurationAsWritten(input: string): (r: Result<int, DurationError>)
    ensures r.Ok? ==> InInt64(r.value)
    ensures r.Err? && TrimSpace(input) != [] ==> r.error == InvalidDuration(TrimSpace(input))
    ensures ParseDuration(input).Ok? ==> r == ParseDuration(input)
    ensures r.Ok? && ParseDuration(input).Err? ==> Atoi(TrimSpace(input)).Some?
  {
    var s := TrimSpace(input);
    if s == [] then Err(EmptyDuration)
    else
      match Atoi(s)
      case Some(n) => Ok(WrapInt64(n * Minute))
      case None =>
        match GoDuration.ParseGoDuration(s)
        case Some(d) => Ok(d)
        case None => Err(InvalidDuration(s))
  }

  /**
   * ParseDuration, with a bare integer whose minutes do not fit in time.Duration refused as an
   * invalid duration, as the same number with an "m" after it is.
   */
  function ParseDuration(input: string): (r: Result<int, DurationError>)
    ensures r.Ok? ==> InInt64(r.value)
    ensures r.Err? && TrimSpace(input) != [] ==> r.error == InvalidDuration(TrimSpace(input))
  {
    var s := TrimSpace(input);
    if s == [] then Err(EmptyDuration)
    else
      match Atoi(s)
      case Some(n) => if InInt64(n * Minute) then Ok(n * Minute) else Err(InvalidDuration(s))
      case None =>
        match GoDuration.ParseGoDuration(s)
        case Some(d) => Ok(d)
        case None => Err(InvalidDuration(s))
  }

  /** Blank input, and only blank input, is the empty-duration error. */
  lemma EmptyExactlyWhenBlank(input: string)
    ensures ParseDuration(input) == Err(EmptyDuration) <==> AllSpace(input)
  {
    TrimSpaceEmpty(input);
  }

  /** The text Go's grammar reads in place of s: a bare integer gets the minute unit. */
  function AsGoDuration(s: string): string
  {
    if Atoi(s).Some? then s + "m" else s
  }

  /**
   * ParseDuration is time.ParseDuration with bare integers read as minutes: on any non-blank
   * input it succeeds exactly when Go's grammar reads the text with "m" added to a bare integer,
   * with that duration.
   */
  lemma BareIntegersAreMinutes(input: string)
    requires !AllSpace(input)
    ensures var s := TrimSpace(input);
      ParseDuration(input) ==
        match GoDuration.ParseGoDuration(AsGoDuration(s))
        case Some(d) => Ok(d)
        case None => Err(InvalidDuration(s))
  {
    TrimSpaceEmpty(input);
    var s := TrimSpace(input);
    if Atoi(s).Some? {
      MinuteSuffix(s, Atoi(s).value);
    }
  }

  lemma MinuteSuffix(s: string, n: int)
    requires Atoi(s) == Some(n)
    ensures GoDuration.ParseGoDuration(s + "m") == if InInt64(n * Minute) then Some(n * Minute) else None
  {
    assert GoDuration.UnitNanos("m") == Some(Minute);
    GoDuration.OneComponent(s, n, "m", Minute);
  }

  /** "30" and "30m" are the same duration, for every integer: a bare number counts minutes. */
  lemma BareAndSuffixed(s: string, n: int)
    requires Atoi(s) == Some(n)
    ensures ParseDuration(s).Ok? <==> ParseDuration(s + "m").Ok?
    ensures ParseDuration(s).Ok? ==> ParseDuration(s).value == ParseDuration(s + "m").value == n * Minute
  {
    Bare(s, n);
    Suffixed(s, n);
  }

  /** A bare integer on its own: n minutes, when they fit. */
  lemma Bare(s: string, n: int)
    requires Atoi(s) == Some(n)
    ensures ParseDuration(s) == if InInt64(n * Minute) then Ok(n * Minute) else Err(InvalidDuration(s))
  {
    IntegerTrimmed(s, n);
  }

  lemma BareAsWritten(s: string, n: int)
    requires Atoi(s) == Some(n)
    ensures ParseDurationAsWritten(s) == Ok(WrapInt64(n * Minute))
  {
    IntegerTrimmed(s, n);
  }

  /** The integer with "m" after it: read by Go's grammar, n minutes when they fit. */
  lemma Suffixed(s: string, n: int)
    requires Atoi(s) == Some(n)
    ensures ParseDuration(s + "m") == if InInt64(n * Minute) then Ok(n * Minute) else Err(InvalidDuration(s + "m"))
  {
    var t := s + "m";
    AtoiEdges(s);
    assert s[0] == t[0] && t[|t| - 1] == 'm';
    TrimSpaceNoop(t);
    AtoiNeedsLastDigit(t);
    MinuteSuffix(s, n);
  }

  lemma SuffixedAsWritten(s: string, n: int)
    requires Atoi(s) == Some(n)
    ensures ParseDurationAsWritten(s + "m") == if InInt64(n * Minute) then Ok(n * Minute) else Err(InvalidDuration(s + "m"))
  {
    var t := s + "m";
    AtoiEdges(s);
    assert s[0] == t[0] && t[|t| - 1] == 'm';
    TrimSpaceNoop(t);
    AtoiNeedsLastDigit(t);
    MinuteSuffix(s, n);
  }

  // ---------------------------------------------------------------------------
  // Go's own examples
  // ---------------------------------------------------------------------------

  /** "30" and "30m" are half an hour. */
  lemma HalfAnHour()
    ensures ParseDuration("30") == Ok(30 * Minute)
    ensures ParseDuration("30m") == Ok(30 * Minute)
  {
    ThirtyBare();
    ThirtySuffixed();
  }

  lemma ThirtyBare()
    ensures ParseDuration("30") == Ok(30 * Minute)
  {
    Thirty();
    Bare("30", 30);
  }

  lemma ThirtySuffixed()
    ensures ParseDuration("30m") == Ok(30 * Minute)
  {
    Thirty();
    Suffixed("30", 30);
    assert "30" + "m" == "30m";
  }

  lemma Thirty()
    ensures Atoi("30") == Some(30)
  {
    assert DecimalValue("30") == 30;
  }

  /** Text without white-space ends that does not end in a digit is read by Go's grammar alone. */
  lemma NotAnInteger(s: string)
    requires s != [] && !IsSpace(s[0]) && !IsSpace(s[|s| - 1]) && !IsDigit(s[|s| - 1])
    ensures ParseDuration(s) == match GoDuration.ParseGoDuration(s)
      case Some(d) => Ok(d)
      case None => Err(InvalidDuration(s))
  {
    TrimSpaceNoop(s);
    AtoiNeedsLastDigit(s);
  }

  /** "2h" is two hours. */
  lemma TwoHours()
    ensures ParseDuration("2h") == Ok(2 * Hour)
  {
    var s := "2h";
    assert !IsDigit(s[|s| - 1]);
    NotAnInteger(s);
    GoTwoHours();
  }

  lemma GoTwoHours()
    ensures GoDuration.ParseGoDuration("2h") == Some(2 * Hour)
  {
    assert DecimalValue("2") == 2;
    assert GoDuration.UnitNanos("h") == Some(Hour);
    GoDuration.OneComponent("2", 2, "h", Hour);
    assert "2" + "h" == "2h";
  }

  /** "90s" is ninety seconds. */
  lemma NinetySeconds()
    ensures ParseDuration("90s") == Ok(90 * Second)
  {
    var s := "90s";
    assert !IsDigit(s[|s| - 1]);
    NotAnInteger(s);
    GoDuration.NinetySeconds();
  }

  /** Text that is no duration is refused, and the error quotes it. */
  lemma InvalidRefused()
    ensures ParseDuration("invalid") == Err(InvalidDuration("invalid"))
  {
    var s := "invalid";
    assert !IsDigit(s[|s| - 1]);
    NotAnInteger(s);
    GoDuration.NotDurations();
    assert ParseDuration(s).Err?;
  }

  // ---------------------------------------------------------------------------
  // The int64 wrap-around of a bare integer
  // ---------------------------------------------------------------------------

  /**
   * As written, a bare integer whose minutes do not fit in time.Duration wraps around to another
   * duration, while the same number with "m" after it is refused by Go's grammar.
   */
  lemma BareIntegerWraps(s: string, n: int)
    requires Atoi(s) == Some(n) && !InInt64(n * Minute)
    ensures ParseDurationAsWritten(s) == Ok(WrapInt64(n * Minute)) && WrapInt64(n * Minute) != n * Minute
    ensures ParseDurationAsWritten(s + "m") == Err(InvalidDuration(s + "m"))
  {
    BareAsWritten(s, n);
    SuffixedAsWritten(s, n);
  }

  /** With the overflow refused, the bare integer and its "m" form are both invalid. */
  lemma BareIntegerRefused(s: string, n: int)
    requires Atoi(s) == Some(n) && !InInt64(n * Minute)
    ensures ParseDuration(s) == Err(InvalidDuration(s))
    ensures ParseDuration(s + "m") == Err(InvalidDuration(s + "m"))
  {
    Bare(s, n);
    Suffixed(s, n);
  }

  /** An integer has no white space at either end. */
  lemma IntegerTrimmed(s: string, n: int)
    requires Atoi(s) == Some(n)
    ensures TrimSpace(s) == s
  {
    AtoiEdges(s);
    TrimSpaceNoop(s);
  }

  /**
   * The smallest such integer: 153722867 minutes fit in int64, 153722868 minutes
   * (9223372080000000000 ns) do not, and wrap to a negative duration. Any text Atoi reads as
   * 153722868, "153722868" first of all, shows it.
   */
  lemma SmallestWrap(s: string)
    requires Atoi(s) == Some(153722868)
    ensures InInt64(153722867 * Minute) && !InInt64(153722868 * Minute)
    ensures ParseDurationAsWritten(s) == Ok(-9223371993709551616)
    ensures ParseDurationAsWritten(s + "m").Err?
    ensures ParseDuration(s).Err? && ParseDuration(s + "m").Err?
  {
    assert WrapInt64(153722868 * Minute) == -9223371993709551616;
    BareIntegerWraps(s, 153722868);
    BareIntegerRefused(s, 153722868);
  }
}
