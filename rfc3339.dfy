/**
 * The two layouts Go's time.Parse is asked to read when a created event comes back from the
 * calendar service: RFC 3339 date-times ("2006-01-02T15:04:05Z07:00", section 5.6 of RFC 3339)
 * and plain dates ("2006-01-02"), together with the text Go's Format prints for them.
 */
module Rfc3339 {
  import opened Wrappers
  import opened Text
  import opened Civil

  /** The zone designator of a date-time: "Z", or a numeric offset east of UTC in seconds. */
  datatype Offset = Zulu | Numeric(seconds: int)

  /** The fields of an RFC 3339 date-time, as read from the text. */
  datatype Stamp = Stamp(date: CivilDate, clock: TimeOfDay, nanos: int, offset: Offset)

  // ---------------------------------------------------------------------------
  // Reading
  // ---------------------------------------------------------------------------

  /** The number written by the n characters of s at position i, when they are all digits. */
  function Field(s: string, i: nat, n: nat): (r: Option<nat>)
    requires i + n <= |s|
    ensures r.Some? <==> AllDigits(s[i..i + n])
  {
    if AllDigits(s[i..i + n]) then Some(DecimalValue(s[i..i + n])) else None
  }

  /** The date, when month and day exist (Go checks the day against daysIn after reading it). */
  function MakeDate(year: nat, month: nat, day: nat): (r: Option<CivilDate>)
    ensures r.Some? <==> ValidDate(Date(year, month, day))
    ensures r.Some? ==> r.value == Date(year, month, day)
  {
    if 1 <= month <= 12 && 1 <= day <= DaysIn(year, month) then Some(Date(year, month, day)) else None
  }

  /** "YYYY-MM-DD" at the start of s: four, two and two digits separated by dashes. */
  function ParseDatePrefix(s: string): (r: Option<CivilDate>)
    requires |s| >= 10
    ensures r.Some? ==> 0 <= r.value.year <= 9999
  {
    var y, m, d := Field(s, 0, 4), Field(s, 5, 2), Field(s, 8, 2);
    if s[4] != '-' || s[7] != '-' || y.None? || m.None? || d.None? then None
    else
      DecimalValueBound(s[0..4]);
      MakeDate(y.value, m.value, d.value)
  }

  /** time.Parse("2006-01-02", s): exactly a date, nothing before or after it. */
  function ParseDate(s: string): Option<CivilDate>
  {
    if |s| != 10 then None else ParseDatePrefix(s)
  }

  /** Go reads the hour of layout "15" as one digit, or two when a second digit follows. */
  function HourLength(t: string): (n: nat)
    ensures n <= 2 && n <= |t| && AllDigits(t[..n])
    ensures n < 2 && n < |t| ==> !IsDigit(t[n])
  {
    if |t| >= 1 && IsDigit(t[0]) then (if |t| >= 2 && IsDigit(t[1]) then 2 else 1) else 0
  }

  /**
   * Length of a fractional second right after the seconds: a '.' or ',' followed by at least
   * one digit, and every digit after it; 0 when there is none.
   */
  function FractionLength(v: string): (n: nat)
    ensures n <= |v|
    ensures n > 0 ==> n >= 2 && (v[0] == '.' || v[0] == ',') && AllDigits(v[1..n])
    ensures n > 0 ==> n == |v| || !IsDigit(v[n])
  {
    if |v| >= 2 && (v[0] == '.' || v[0] == ',') && IsDigit(v[1]) then
      var k := DigitSpan(v[1..]);
      assert v[1..][..k] == v[1..1 + k];
      1 + k
    else 0
  }

  /** Go's parseNanoseconds: the first nine digits are kept and scaled to nanoseconds. */
  function FractionNanos(digits: string): (ns: nat)
    requires AllDigits(digits)
    ensures ns < Second
  {
    var k := if |digits| < 9 then |digits| else 9;
    DecimalValueBound(digits[..k]);
    PowScale(k);
    ScaleBelow(DecimalValue(digits[..k]), Pow10(k), Pow10(9 - k));
    DecimalValue(digits[..k]) * Pow10(9 - k)
  }

  lemma ScaleBelow(v: nat, bound: nat, scale: nat)
    requires v < bound && scale >= 1
    ensures 0 <= v * scale < bound * scale
  {
  }

  /** Scaling a number of k digits by 10^(9-k) stays below one second. */
  lemma PowScale(k: nat)
    requires k <= 9
    ensures Pow10(k) * Pow10(9 - k) == Second
    decreases 9 - k
  {
    if k < 9 {
      PowScale(k + 1);
      var a, b := Pow10(k), Pow10(9 - k - 1);
      assert Pow10(k + 1) == 10 * a;
      assert Pow10(9 - k) == 10 * b;
      calc {
        a * (10 * b);
        (10 * a) * b;
        Second;
      }
    }
  }

  /**
   * The zone part "Z07:00": a capital 'Z', or a sign, two digits, a colon and two digits; Go
   * accepts offset hours up to 24 and minutes up to 60. Nothing may follow.
   */
  function ParseOffset(w: string): (r: Option<Offset>)
    ensures r.Some? && r.value.Numeric? ==> -90000 <= r.value.seconds <= 90000
  {
    if |w| >= 1 && w[0] == 'Z' then (if |w| == 1 then Some(Zulu) else None)
    else if |w| < 6 || w[3] != ':' then None
    else
      var hh, mm := Field(w, 1, 2), Field(w, 4, 2);
      if hh.None? || mm.None? || hh.value > 24 || mm.value > 60 then None
      else if (w[0] != '+' && w[0] != '-') || |w| != 6 then None
      else
        var magnitude: int := (hh.value * 60 + mm.value) * 60;
        Some(Numeric(if w[0] == '-' then -magnitude else magnitude))
  }

  /** Everything after the 'T': hour, minutes, seconds, an optional fraction, then the zone. */
  function ParseClock(t: string): (r: Option<(TimeOfDay, nat, Offset)>)
    ensures r.Some? ==> ValidClock(r.value.0) && r.value.1 < Second
  {
    var hl := HourLength(t);
    if hl == 0 || |t| < hl + 6 then None
    else
      var u := t[hl..];
      var h, mi, se := Field(t, 0, hl), Field(u, 1, 2), Field(u, 4, 2);
      if u[0] != ':' || u[3] != ':' || h.None? || mi.None? || se.None? then None
      else if h.value > 23 || mi.value > 59 || se.value > 59 then None
      else
        var v := u[6..];
        var fl := FractionLength(v);
        var nanos := if fl == 0 then 0 else FractionNanos(v[1..fl]);
        var off := ParseOffset(v[fl..]);
        if off.None? then None else Some((TimeOfDay(h.value, mi.value, se.value), nanos, off.value))
  }

  /** time.Parse(time.RFC3339, s), as the fields it reads. */
  function ParseDateTime(s: string): (r: Option<Stamp>)
    ensures r.Some? ==> 0 <= r.value.date.year <= 9999
    ensures r.Some? ==> ValidClock(r.value.clock) && 0 <= r.value.nanos < Second
  {
    if |s| < 11 || s[10] != 'T' then None
    else
      var d := ParseDatePrefix(s);
      var c := ParseClock(s[11..]);
      if d.None? || c.None? then None
      else Some(Stamp(d.value, c.value.0, c.value.1, c.value.2))
  }

  /** The time.Time a stamp denotes: UTC for "Z", an unnamed fixed zone for a numeric offset. */
  function StampTime(st: Stamp): (t: Time)
    ensures st.offset.Zulu? ==> t.zone == Utc
    ensures st.offset.Numeric? ==> t.zone == Fixed(st.offset.seconds)
    ensures t.unixNanos + OffsetSeconds(st.offset) * Second == UtcInstant(st.date, st.clock, st.nanos)
  {
    match st.offset
    case Zulu => Time(UtcInstant(st.date, st.clock, st.nanos), Utc)
    case Numeric(o) => Time(UtcInstant(st.date, st.clock, st.nanos) - o * 1000_000_000, Fixed(o))
  }

  function OffsetSeconds(o: Offset): int
  {
    match o
    case Zulu => 0
    case Numeric(s) => s
  }

  /** time.Parse(time.RFC3339, s). */
  function ParseRfc3339(s: string): (r: Option<Time>)
    ensures r.Some? <==> ParseDateTime(s).Some?
    ensures r.Some? ==> |s| > 10 && s[10] == 'T'
    ensures r.Some? ==> r.value.zone == Utc || r.value.zone.Fixed?
  {
    match ParseDateTime(s)
    case Some(st) => Some(StampTime(st))
    case None => None
  }

  /** time.Parse("2006-01-02", s): midnight UTC of that date. */
  function ParseDateOnly(s: string): (r: Option<Time>)
    ensures r.Some? <==> ParseDate(s).Some?
    ensures r.Some? ==> r.value.unixNanos == UtcInstant(ParseDate(s).value, TimeOfDay(0, 0, 0), 0)
  {
    match ParseDate(s)
    case Some(d) => Some(Time(UtcInstant(d, TimeOfDay(0, 0, 0), 0), Utc))
    case None => None
  }

  lemma DateOnlyIsUtc(s: string)
    requires ParseDateOnly(s).Some?
    ensures ParseDateOnly(s).value.zone == Utc
  {
  }

  // ---------------------------------------------------------------------------
  // Writing
  // ---------------------------------------------------------------------------

  /** n in exactly two digits. */
  function Pad2(n: nat): (r: string)
    requires n < 100
    ensures |r| == 2 && AllDigits(r) && DecimalValue(r) == n
  {
    var a, b := DigitChar(n / 10), DigitChar(n % 10);
    DecimalValueSnoc([], a);
    DecimalValueSnoc([a], b);
    assert [a] + [b] == [a, b];
    [a, b]
  }

  /** Two digits written after other digits shift them left by two places. */
  lemma DecimalValueAppend2(a: string, b: string)
    requires AllDigits(a) && AllDigits(b) && |b| == 2
    ensures AllDigits(a + b) && DecimalValue(a + b) == DecimalValue(a) * 100 + DecimalValue(b)
  {
    var b0, b1 := b[0], b[1];
    var a0 := a + [b0];
    DecimalValueSnoc(a, b0);
    DecimalValueSnoc(a0, b1);
    assert a + b == a0 + [b1];
    DecimalValueSnoc([], b0);
    DecimalValueSnoc([b0], b1);
    assert b == [b0] + [b1];
    var va, v0, d0, d1 := DecimalValue(a), DecimalValue(a0), DigitValue(b0), DigitValue(b1);
    assert v0 == 10 * va + d0;
    assert DecimalValue(a + b) == 10 * v0 + d1;
    assert DecimalValue(b) == 10 * d0 + d1;
  }

  /** n in exactly four digits. */
  function Pad4(n: nat): (r: string)
    requires n < 10000
    ensures |r| == 4 && AllDigits(r) && DecimalValue(r) == n
  {
    DecimalValueAppend2(Pad2(n / 100), Pad2(n % 100));
    Pad2(n / 100) + Pad2(n % 100)
  }

  /** Two digits are the padded form of their value. */
  lemma Pad2Of(x: string)
    requires |x| == 2 && AllDigits(x)
    ensures DecimalValue(x) < 100 && Pad2(DecimalValue(x)) == x
  {
    DecimalValueSnoc([], x[0]);
    DecimalValueSnoc([x[0]], x[1]);
    assert x == [x[0]] + [x[1]];
  }

  /** Four digits are the padded form of their value. */
  lemma Pad4Of(x: string)
    requires |x| == 4 && AllDigits(x)
    ensures DecimalValue(x) < 10000 && Pad4(DecimalValue(x)) == x
  {
    var hi, lo := x[..2], x[2..];
    assert x == hi + lo;
    Pad2Of(hi);
    Pad2Of(lo);
    DecimalValueAppend2(hi, lo);
    var vh, vl := DecimalValue(hi), DecimalValue(lo);
    assert DecimalValue(x) == vh * 100 + vl;
    assert (vh * 100 + vl) / 100 == vh && (vh * 100 + vl) % 100 == vl;
  }

  /** t.Format("2006-01-02"). */
  function FormatDate(d: CivilDate): (s: string)
    requires 0 <= d.year <= 9999
    ensures |s| == 10
  {
    Pad4(d.year) + "-" + Pad2(d.month) + "-" + Pad2(d.day)
  }

  /** The zone designator Format prints for layout "Z07:00": 'Z' for a zero offset, else ±hh:mm. */
  function FormatOffset(o: Offset): string
    requires o.Numeric? ==> -90000 < o.seconds < 90000
  {
    match o
    case Zulu => "Z"
    case Numeric(s) =>
      if s == 0 then "Z"
      else
        var minutes := (if s < 0 then -s else s) / 60;
        (if s < 0 then "-" else "+") + Pad2(minutes / 60) + ":" + Pad2(minutes % 60)
  }

  /** The stamps that Format writes and Parse reads back unchanged. */
  predicate Canonical(st: Stamp)
  {
    && 0 <= st.date.year <= 9999
    && ValidClock(st.clock)
    && st.nanos == 0
    && (st.offset.Numeric? ==>
          st.offset.seconds != 0 && st.offset.seconds % 60 == 0 && -90000 < st.offset.seconds < 90000)
  }

  /** t.Format(time.RFC3339) for a time whose fields in its zone are st. */
  function FormatDateTime(st: Stamp): (s: string)
    requires Canonical(st)
    ensures |s| >= 20 && s[..10] == FormatDate(st.date) && s[10] == 'T'
    ensures s[13] == ':' && s[16] == ':'
  {
    FormatDate(st.date) + "T" + Pad2(st.clock.hour) + ":" + Pad2(st.clock.minute) + ":"
      + Pad2(st.clock.second) + FormatOffset(st.offset)
  }

  // ---------------------------------------------------------------------------
  // Round trips
  // ---------------------------------------------------------------------------

  /** A date reads back from its own text. */
  lemma ParseFormatDate(d: CivilDate)
    requires 0 <= d.year <= 9999
    ensures ParseDate(FormatDate(d)) == Some(d)
  {
    var s := FormatDate(d);
    assert s[0..4] == Pad4(d.year);
    assert s[5..7] == Pad2(d.month);
    assert s[8..10] == Pad2(d.day);
  }

  /** A date text that parses is exactly the text of the date it denotes. */
  lemma FormatParseDate(s: string)
    requires ParseDate(s).Some?
    ensures 0 <= ParseDate(s).value.year <= 9999
    ensures FormatDate(ParseDate(s).value) == s
  {
    Pad4Of(s[0..4]);
    Pad2Of(s[5..7]);
    Pad2Of(s[8..10]);
    assert s == s[0..4] + "-" + s[5..7] + "-" + s[8..10];
  }

  /** The offset designator reads back as the offset it was written from. */
  lemma ParseFormatOffset(o: Offset)
    requires o.Numeric? ==> o.seconds != 0 && o.seconds % 60 == 0 && -90000 < o.seconds < 90000
    ensures ParseOffset(FormatOffset(o)) == Some(o)
  {
    if o.Numeric? {
      var s := o.seconds;
      var minutes := (if s < 0 then -s else s) / 60;
      var w := FormatOffset(o);
      assert w[1..3] == Pad2(minutes / 60);
      assert w[4..6] == Pad2(minutes % 60);
    }
  }

  /** The clock part Format writes (no fraction, since nanos are zero) reads back. */
  lemma ParseFormatClock(c: TimeOfDay, o: Offset)
    requires ValidClock(c)
    requires o.Numeric? ==> o.seconds != 0 && o.seconds % 60 == 0 && -90000 < o.seconds < 90000
    ensures ParseClock(Pad2(c.hour) + ":" + Pad2(c.minute) + ":" + Pad2(c.second) + FormatOffset(o))
      == Some((c, 0, o))
  {
    var zone := FormatOffset(o);
    var hh, mm, ss := Pad2(c.hour), Pad2(c.minute), Pad2(c.second);
    var u := [':'] + mm + [':'] + ss + zone;
    var t := hh + u;
    assert t == hh + ":" + mm + ":" + ss + zone;
    assert HourLength(t) == 2;
    assert t[0..2] == hh;
    assert t[2..] == u;
    assert u[1..3] == mm;
    assert u[4..6] == ss;
    assert u[6..] == zone;
    ParseFormatOffset(o);
    assert FractionLength(zone) == 0;
  }

  /** A canonical stamp reads back from the RFC 3339 text Format writes for it. */
  lemma ParseFormatDateTime(st: Stamp)
    requires Canonical(st)
    ensures ParseDateTime(FormatDateTime(st)) == Some(st)
  {
    var s := FormatDateTime(st);
    var date := FormatDate(st.date);
    var t := Pad2(st.clock.hour) + ":" + Pad2(st.clock.minute) + ":" + Pad2(st.clock.second)
      + FormatOffset(st.offset);
    assert s == date + "T" + t;
    assert s[..10] == date;
    ParseFormatDate(st.date);
    assert ParseDatePrefix(s) == ParseDatePrefix(date) by {
      assert s[0..4] == date[0..4];
      assert s[5..7] == date[5..7];
      assert s[8..10] == date[8..10];
    }
    assert s[11..] == t;
    ParseFormatClock(st.clock, st.offset);
  }
}
