/**
 * The three anchored regular expressions of calgo's date/time resolver, as recognisers that
 * return the text of each part of a match:
 *
 *   clock:    ^(\d{1,2}):(\d{2})(?::(\d{2}))?$
 *   relative: ^in\s+(\d+)\s*(hours?|minutes?|mins?|hrs?)$
 *   day:      ^(?:today|tomorrow)\s*(?:at\s+)?(\d{1,2}):(\d{2})(?::(\d{2}))?$
 *
 * Each recogniser is sound (a match spells out the input) and complete (every string the
 * expression describes is matched, with exactly those parts).
 */
module Patterns {
  import opened Wrappers
  import opened Text

  // ---------------------------------------------------------------------------
  // Greedy runs
  // ---------------------------------------------------------------------------

  /** The longest run of `\s` at the front of s, and what follows it. */
  function SplitSpaces(s: string): (r: (string, string))
    ensures r.0 + r.1 == s && AllRegexSpace(r.0)
    ensures r.1 == [] || !IsRegexSpace(r.1[0])
    decreases |s|
  {
    if s != [] && IsRegexSpace(s[0]) then
      var t := SplitSpaces(s[1..]);
      assert [s[0]] + t.0 + t.1 == s;
      ([s[0]] + t.0, t.1)
    else ([], s)
  }

  /** The longest run of `\d` at the front of s, and what follows it. */
  function SplitDigits(s: string): (r: (string, string))
    ensures r.0 + r.1 == s && AllDigits(r.0)
    ensures r.1 == [] || !IsDigit(r.1[0])
    decreases |s|
  {
    if s != [] && IsDigit(s[0]) then
      var t := SplitDigits(s[1..]);
      assert [s[0]] + t.0 + t.1 == s;
      ([s[0]] + t.0, t.1)
    else ([], s)
  }

  /** A run of spaces that stops at a non-space is split off exactly. */
  lemma {:induction false} SplitSpacesOf(a: string, b: string)
    requires AllRegexSpace(a)
    requires b == [] || !IsRegexSpace(b[0])
    ensures SplitSpaces(a + b) == (a, b)
    decreases |a|
  {
    if a == [] {
      assert a + b == b;
    } else {
      assert (a + b)[1..] == a[1..] + b;
      SplitSpacesOf(a[1..], b);
      assert [a[0]] + a[1..] == a;
    }
  }

  /** A run of digits that stops at a non-digit is split off exactly. */
  lemma {:induction false} SplitDigitsOf(a: string, b: string)
    requires AllDigits(a)
    requires b == [] || !IsDigit(b[0])
    ensures SplitDigits(a + b) == (a, b)
    decreases |a|
  {
    if a == [] {
      assert a + b == b;
    } else {
      assert (a + b)[1..] == a[1..] + b;
      SplitDigitsOf(a[1..], b);
      assert [a[0]] + a[1..] == a;
    }
  }

  // ---------------------------------------------------------------------------
  // H:MM[:SS]
  // ---------------------------------------------------------------------------

  /** The captures of the clock pattern; `second` is empty when the group did not take part. */
  datatype ClockText = ClockText(hour: string, minute: string, second: string)

  predicate IsClockText(c: ClockText)
  {
    1 <= |c.hour| <= 2 && AllDigits(c.hour)
    && |c.minute| == 2 && AllDigits(c.minute)
    && (c.second == [] || (|c.second| == 2 && AllDigits(c.second)))
  }

  /** The text of the optional seconds group, colon included. */
  function SecondString(second: string): string
  {
    if second == [] then [] else [':'] + second
  }

  /** The text a clock match covers. */
  function ClockString(c: ClockText): string
  {
    c.hour + ([':'] + (c.minute + SecondString(c.second)))
  }

  /** `:(\d{2})(?::(\d{2}))?$`, the part of the clock pattern after the hour. */
  function MatchMinutes(s: string): (r: Option<(string, string)>)
    ensures r.Some? ==> |r.value.0| == 2 && AllDigits(r.value.0)
    ensures r.Some? ==> r.value.1 == [] || (|r.value.1| == 2 && AllDigits(r.value.1))
    ensures r.Some? ==> s == [':'] + (r.value.0 + SecondString(r.value.1))
  {
    if |s| == 3 && s[0] == ':' && IsDigit(s[1]) && IsDigit(s[2]) then
      assert s == [':'] + (s[1..3] + []);
      Some((s[1..3], []))
    else if |s| == 6 && s[0] == ':' && IsDigit(s[1]) && IsDigit(s[2])
      && s[3] == ':' && IsDigit(s[4]) && IsDigit(s[5]) then
      assert s == [':'] + (s[1..3] + ([':'] + s[4..6]));
      Some((s[1..3], s[4..6]))
    else None
  }

  /** `^(\d{1,2}):(\d{2})(?::(\d{2}))?$` */
  function MatchClock(s: string): (r: Option<ClockText>)
    ensures r.Some? ==> IsClockText(r.value) && ClockString(r.value) == s
  {
    var (hour, rest) := SplitDigits(s);
    if |hour| < 1 || |hour| > 2 then None
    else
      match MatchMinutes(rest)
      case None => None
      case Some((minute, second)) => Some(ClockText(hour, minute, second))
  }

  /** The minutes and the optional seconds are read back exactly. */
  lemma MatchMinutesComplete(minute: string, second: string)
    requires |minute| == 2 && AllDigits(minute)
    requires second == [] || (|second| == 2 && AllDigits(second))
    ensures MatchMinutes([':'] + (minute + SecondString(second))) == Some((minute, second))
  {
    var s := [':'] + (minute + SecondString(second));
    assert s[1..3] == minute;
    if second != [] {
      assert s[4..6] == second;
    }
  }

  /** Every string the clock pattern describes is matched, with exactly its parts. */
  lemma MatchClockComplete(c: ClockText)
    requires IsClockText(c)
    ensures MatchClock(ClockString(c)) == Some(c)
  {
    SplitDigitsOf(c.hour, [':'] + (c.minute + SecondString(c.second)));
    MatchMinutesComplete(c.minute, c.second);
  }

  // ---------------------------------------------------------------------------
  // in N <unit>
  // ---------------------------------------------------------------------------

  /** The unit alternatives hours?|minutes?|mins?|hrs?. */
  predicate IsInUnit(u: string)
  {
    u == "hour" || u == "hours" || u == "minute" || u == "minutes"
    || u == "min" || u == "mins" || u == "hr" || u == "hrs"
  }

  /** A match of the relative pattern: the gaps are the text of the two \s runs. */
  datatype InText = InText(gap: string, amount: string, space: string, unit: string)

  predicate IsInText(m: InText)
  {
    m.gap != [] && AllRegexSpace(m.gap)
    && m.amount != [] && AllDigits(m.amount)
    && AllRegexSpace(m.space)
    && IsInUnit(m.unit)
  }

  function InString(m: InText): string
  {
    "in" + (m.gap + (m.amount + (m.space + m.unit)))
  }

  /** `^in\s+(\d+)\s*(hours?|minutes?|mins?|hrs?)$` */
  function MatchIn(s: string): (r: Option<InText>)
    ensures r.Some? ==> IsInText(r.value) && InString(r.value) == s
  {
    if |s| < 2 || s[0] != 'i' || s[1] != 'n' then None
    else
      var (gap, b) := SplitSpaces(s[2..]);
      var (amount, c) := SplitDigits(b);
      var (space, unit) := SplitSpaces(c);
      if gap == [] || amount == [] || !IsInUnit(unit) then None
      else
        assert s == "in" + s[2..];
        Some(InText(gap, amount, space, unit))
  }

  /** Every string the relative pattern describes is matched, with exactly its parts. */
  lemma MatchInComplete(m: InText)
    requires IsInText(m)
    ensures MatchIn(InString(m)) == Some(m)
  {
    var s := InString(m);
    var c := m.space + m.unit;
    var b := m.amount + c;
    var a := m.gap + b;
    assert s == "in" + a && s[2..] == a;
    assert !IsDigit(m.unit[0]) && !IsRegexSpace(m.unit[0]);
    SplitSpacesOf(m.space, m.unit);
    assert c[0] == if m.space != [] then m.space[0] else m.unit[0];
    SplitDigitsOf(m.amount, c);
    SplitSpacesOf(m.gap, b);
  }

  // ---------------------------------------------------------------------------
  // today|tomorrow [at] H:MM[:SS]
  // ---------------------------------------------------------------------------

  /**
   * A match of the day pattern: the day word, the \s* run after it, whether the optional
   * `at\s+` group took part (and its \s+ run), and the clock.
   */
  datatype DayText = DayText(word: string, gap: string, at: bool, space: string, clock: ClockText)

  predicate IsDayText(d: DayText)
  {
    (d.word == "today" || d.word == "tomorrow")
    && AllRegexSpace(d.gap)
    && (if d.at then d.space != [] && AllRegexSpace(d.space) else d.space == [])
    && IsClockText(d.clock)
  }

  /** The optional `at\s+` group (when it took part) and the clock after it. */
  function AtClockString(d: DayText): string
  {
    var cs := ClockString(d.clock);
    if d.at then "at" + (d.space + cs) else cs
  }

  function DayString(d: DayText): string
  {
    d.word + (d.gap + AtClockString(d))
  }

  /** The day word at the front of s, and what follows it. */
  function SplitDayWord(s: string): (r: Option<(string, string)>)
    ensures r.Some? ==> (r.value.0 == "today" || r.value.0 == "tomorrow") && r.value.0 + r.value.1 == s
  {
    if HasPrefix(s, "today") then
      assert s == s[..5] + s[5..];
      Some(("today", s[5..]))
    else if HasPrefix(s, "tomorrow") then
      assert s == s[..8] + s[8..];
      Some(("tomorrow", s[8..]))
    else None
  }

  /** The optional group `(?:at\s+)?`: whether it takes part, its run of spaces, and the rest. */
  function SplitAt(s: string): (r: (bool, string, string))
    ensures r.0 ==> r.1 != [] && AllRegexSpace(r.1) && s == "at" + (r.1 + r.2)
    ensures !r.0 ==> r.1 == [] && r.2 == s
  {
    if |s| >= 2 && s[0] == 'a' && s[1] == 't' then
      var (space, rest) := SplitSpaces(s[2..]);
      if space != [] then
        assert s == "at" + s[2..];
        (true, space, rest)
      else (false, [], s)
    else (false, [], s)
  }

  /** `^(?:today|tomorrow)\s*(?:at\s+)?(\d{1,2}):(\d{2})(?::(\d{2}))?$` */
  function MatchDay(s: string): (r: Option<DayText>)
    ensures r.Some? ==> IsDayText(r.value) && DayString(r.value) == s
  {
    match SplitDayWord(s)
    case None => None
    case Some((word, a)) =>
      var (gap, b) := SplitSpaces(a);
      var (at, space, c) := SplitAt(b);
      match MatchClock(c)
      case None => None
      case Some(clock) => Some(DayText(word, gap, at, space, clock))
  }

  /** Every string the day pattern describes is matched, with exactly its parts. */
  lemma MatchDayComplete(d: DayText)
    requires IsDayText(d)
    ensures MatchDay(DayString(d)) == Some(d)
  {
    var b := AtClockString(d);
    var a := d.gap + b;
    SplitDayWordOf(d.word, a);
    assert b[0] == 'a' || IsDigit(b[0]) by {
      assert ClockString(d.clock)[0] == d.clock.hour[0];
    }
    SplitSpacesOf(d.gap, b);
    SplitAtOf(d);
    MatchClockComplete(d.clock);
  }

  lemma SplitDayWordOf(word: string, a: string)
    requires word == "today" || word == "tomorrow"
    ensures SplitDayWord(word + a) == Some((word, a))
  {
    var s := word + a;
    if word == "today" {
      assert s[..5] == "today" && s[5..] == a;
    } else {
      assert s[2] == 'm';
      assert s[..8] == "tomorrow" && s[8..] == a;
    }
  }

  lemma SplitAtOf(d: DayText)
    requires IsDayText(d)
    ensures SplitAt(AtClockString(d)) == (d.at, d.space, ClockString(d.clock))
  {
    var cs := ClockString(d.clock);
    assert cs[0] == d.clock.hour[0];
    if d.at {
      var b := "at" + (d.space + cs);
      assert b[2..] == d.space + cs;
      SplitSpacesOf(d.space, cs);
    }
  }

  // ---------------------------------------------------------------------------
  // Matches are already lower case
  // ---------------------------------------------------------------------------

  /** White space, digits, lower-case letters and colons are left alone by strings.ToLower. */
  predicate PlainChar(c: char)
  {
    IsRegexSpace(c) || IsDigit(c) || ('a' <= c <= 'z') || c == ':'
  }

  lemma PlainNoUpper(s: string)
    requires forall i :: 0 <= i < |s| ==> PlainChar(s[i])
    ensures NoUpper(s)
  {
  }

  lemma ClockNoUpper(c: ClockText)
    requires IsClockText(c)
    ensures NoUpper(ClockString(c))
  {
    PlainNoUpper(c.hour);
    PlainNoUpper(c.minute);
    PlainNoUpper(c.second);
    PlainNoUpper([':']);
    if c.second != [] { NoUpperConcat([':'], c.second); }
    NoUpperConcat(c.minute, SecondString(c.second));
    NoUpperConcat([':'], c.minute + SecondString(c.second));
    NoUpperConcat(c.hour, [':'] + (c.minute + SecondString(c.second)));
  }

  /** Every text the relative pattern matches is its own lower-case form. */
  lemma InTextNoUpper(m: InText)
    requires IsInText(m)
    ensures NoUpper(InString(m))
  {
    PlainNoUpper("in");
    PlainNoUpper(m.gap);
    PlainNoUpper(m.amount);
    PlainNoUpper(m.space);
    PlainNoUpper(m.unit);
    NoUpperConcat(m.space, m.unit);
    NoUpperConcat(m.amount, m.space + m.unit);
    NoUpperConcat(m.gap, m.amount + (m.space + m.unit));
    NoUpperConcat("in", m.gap + (m.amount + (m.space + m.unit)));
  }

  /** Every text the day pattern matches is its own lower-case form. */
  lemma DayTextNoUpper(d: DayText)
    requires IsDayText(d)
    ensures NoUpper(DayString(d))
  {
    var cs := ClockString(d.clock);
    ClockNoUpper(d.clock);
    PlainNoUpper(d.word);
    PlainNoUpper(d.gap);
    if d.at {
      PlainNoUpper("at");
      PlainNoUpper(d.space);
      NoUpperConcat(d.space, cs);
      NoUpperConcat("at", d.space + cs);
    }
    NoUpperConcat(d.gap, AtClockString(d));
    NoUpperConcat(d.word, d.gap + AtClockString(d));
  }
}
