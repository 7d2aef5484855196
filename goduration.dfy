/**
 * Go's time.ParseDuration, which calgo's ParseDuration falls back to for anything that is not a
 * bare integer: an optional sign, then one or more components, each a decimal number (with an
 * optional fraction) followed by a unit among ns, us, µs, μs, ms, s, m and h. The sum is
 * accumulated in a 64-bit unsigned integer and must end up within the range of int64.
 */
module GoDuration {
  import opened Wrappers
  import opened Text

  const TwoTo63: int := 0x8000_0000_0000_0000
  const TwoTo64: int := 0x1_0000_0000_0000_0000

  // ---------------------------------------------------------------------------
  // Units
  // ---------------------------------------------------------------------------

  /**
   * The unit table of time.ParseDuration, in nanoseconds: ns, us, µs (U+00B5), μs (U+03BC), ms,
   * s, m and h. Written character by character; UnitNames checks it against the names.
   */
  function UnitNanos(u: string): (r: Option<nat>)
    ensures r.Some? ==> r.value > 0
  {
    if |u| == 1 then
      if u[0] == 's' then Some(1000_000_000)
      else if u[0] == 'm' then Some(60_000_000_000)
      else if u[0] == 'h' then Some(3600_000_000_000)
      else None
    else if |u| == 2 && u[1] == 's' then
      if u[0] == 'n' then Some(1)
      else if u[0] == 'u' || u[0] == '\U{B5}' || u[0] == '\U{3BC}' then Some(1000)
      else if u[0] == 'm' then Some(1000_000)
      else None
    else None
  }

  /** The table holds exactly the eight unit names. */
  lemma UnitNames(u: string)
    ensures UnitNanos(u) == (
      if u == "ns" then Some(1)
      else if u == "us" || u == "\U{B5}s" || u == "\U{3BC}s" then Some(1000)
      else if u == "ms" then Some(1000_000)
      else if u == "s" then Some(1000_000_000)
      else if u == "m" then Some(60_000_000_000)
      else if u == "h" then Some(3600_000_000_000)
      else None)
  {
    if |u| == 1 {
      assert u == [u[0]];
    } else if |u| == 2 {
      assert u == [u[0], u[1]];
    }
  }

  /**
   * The largest count of a unit that time.ParseDuration accepts before it reports an overflow,
   * Go's 1<<63/unit, written out per unit (LimitIsQuotient checks the table).
   */
  function Limit(unit: nat): nat
  {
    if unit == 1 then 0x8000_0000_0000_0000
    else if unit == 1000 then 9_223_372_036_854_775
    else if unit == 1000_000 then 9_223_372_036_854
    else if unit == 1000_000_000 then 9_223_372_036
    else if unit == 60_000_000_000 then 153_722_867
    else if unit == 3600_000_000_000 then 2_562_047
    else 0
  }

  lemma LimitIsQuotient(u: string)
    requires UnitNanos(u).Some?
    ensures Limit(UnitNanos(u).value) == TwoTo63 / UnitNanos(u).value
  {
  }

  /** Go's overflow test v > 2^63/unit is exactly v * unit > 2^63. */
  lemma DivBound(v: nat, unit: nat)
    requires unit > 0
    ensures v <= TwoTo63 / unit <==> v * unit <= TwoTo63
  {
    var q := TwoTo63 / unit;
    assert q * unit <= TwoTo63 < (q + 1) * unit;
    if v <= q {
      assert v * unit <= q * unit;
    } else {
      assert v * unit >= (q + 1) * unit;
    }
  }

  // ---------------------------------------------------------------------------
  // The scanning loops
  // ---------------------------------------------------------------------------

  /** A number read off the front of the text, and what follows it. */
  datatype Scan = Scan(value: nat, rest: string)

  /** A fraction x / 10^digits read off the front of the text, and what follows it. */
  datatype Fraction = Fraction(x: nat, digits: nat, rest: string)

  /** Whether c can start a number: a digit or a decimal point. */
  predicate IsNumberChar(c: char)
  {
    IsDigit(c) || c == '.'
  }

  /**
   * Go's leadingInt, continuing from the value x read so far: consumes the leading digits, and
   * fails as soon as the value would exceed 2^63.
   */
  function LeadingInt(s: string, x: nat): (r: Option<Scan>)
    requires x <= TwoTo63
    ensures r.Some? ==> r.value.value <= TwoTo63 && |r.value.rest| <= |s|
    ensures r.Some? ==> r.value.rest == [] || !IsDigit(r.value.rest[0])
  {
    if s == [] || !IsDigit(s[0]) then Some(Scan(x, s))
    else if x > 922_337_203_685_477_580 then None
    else
      var y := x * 10 + DigitValue(s[0]);
      if y > TwoTo63 then None else LeadingInt(s[1..], y)
  }

  /**
   * Go's leadingFraction, continuing from the value x of k digits read so far: consumes the
   * leading digits, but once the value would exceed 2^63 the remaining digits are skipped rather
   * than rejected.
   */
  function LeadingFraction(s: string, x: nat, k: nat, overflow: bool): (r: Fraction)
    ensures |r.rest| <= |s|
    ensures r.rest == [] || !IsDigit(r.rest[0])
  {
    if s == [] || !IsDigit(s[0]) then Fraction(x, k, s)
    else if overflow || x > (TwoTo63 - 1) / 10 then LeadingFraction(s[1..], x, k, true)
    else
      var y := x * 10 + DigitValue(s[0]);
      if y > TwoTo63 then LeadingFraction(s[1..], x, k, true)
      else LeadingFraction(s[1..], y, k + 1, false)
  }

  /** The unit after a number: every character up to the next digit or decimal point. */
  function UnitPrefix(s: string): (r: (string, string))
    ensures r.0 + r.1 == s
    ensures r.1 == [] || IsNumberChar(r.1[0])
    decreases |s|
  {
    if s == [] || IsNumberChar(s[0]) then ([], s)
    else
      var r := UnitPrefix(s[1..]);
      ([s[0]] + r.0, r.1)
  }

  /** A product of two counts. */
  function Scale(a: nat, b: nat): nat
  {
    a * b
  }

  /**
   * The nanoseconds a fraction x / 10^k of a unit adds, rounded down (dividing by ten k times
   * rounds down as one division by 10^k does). Go computes it in float64 and only when x > 0.
   */
  function FractionNanos(x: nat, unit: nat, k: nat): nat
  {
    if k == 0 then Scale(x, unit) else FractionNanos(x, unit, k - 1) / 10
  }

  // ---------------------------------------------------------------------------
  // Components and the whole duration
  // ---------------------------------------------------------------------------

  /** One component read off the front of the text: its length in nanoseconds and what follows. */
  datatype Piece = Piece(nanos: nat, rest: string)

  /**
   * One pass of the component loop of time.ParseDuration: a number with an optional fraction,
   * then its unit. Returns None for any error Go reports there.
   */
  function Component(s: string): (r: Option<Piece>)
    requires s != []
    ensures r.Some? ==> r.value.nanos <= TwoTo63 && |r.value.rest| < |s|
  {
    if !IsNumberChar(s[0]) then None
    else
      match LeadingInt(s, 0)
      case None => None
      case Some(whole) =>
        var pre := |whole.rest| < |s|;
        var hasPoint := whole.rest != [] && whole.rest[0] == '.';
        var frac :=
          if hasPoint then LeadingFraction(whole.rest[1..], 0, 0, false)
          else Fraction(0, 0, whole.rest);
        var post := hasPoint && |frac.rest| < |whole.rest| - 1;
        if !pre && !post then None
        else
          var (u, rest) := UnitPrefix(frac.rest);
          if u == [] then None
          else
            match UnitNanos(u)
            case None => None
            case Some(unit) =>
              if whole.value > Limit(unit) then None
              else
                var w := if frac.x > 0 then Scale(whole.value, unit) + FractionNanos(frac.x, unit, frac.digits)
                  else Scale(whole.value, unit);
                if w > TwoTo63 then None
                else Some(Piece(w, rest))
  }

  /**
   * The component loop of time.ParseDuration over what follows the sign, with d the total so
   * far. Returns the total, or None for any error.
   */
  function Components(s: string, d: nat): (r: Option<nat>)
    requires d <= TwoTo63
    ensures r.Some? ==> r.value <= TwoTo63
    decreases |s|
  {
    if s == [] then Some(d)
    else
      match Component(s)
      case None => None
      case Some(p) =>
        // the total is a uint64 and both terms are at most 2^63: it wraps only at exactly 2^64
        var total := if d + p.nanos == TwoTo64 then 0 else d + p.nanos;
        if total > TwoTo63 then None
        else Components(p.rest, total)
  }

  /** time.ParseDuration: the duration in nanoseconds, or None when Go reports an error. */
  function ParseGoDuration(s: string): (r: Option<int>)
    ensures r.Some? ==> InInt64(r.value)
  {
    var neg := s != [] && s[0] == '-';
    var rest := if s != [] && (s[0] == '-' || s[0] == '+') then s[1..] else s;
    if rest == "0" then Some(0)
    else if rest == [] then None
    else
      match Components(rest, 0)
      case None => None
      case Some(d) =>
        if neg then Some(-(d as int))
        else if d > MaxInt64 then None
        else Some(d)
  }

  // ---------------------------------------------------------------------------
  // What the loops compute
  // ---------------------------------------------------------------------------

  /** Reading digits from the front the way leadingInt does (Horner's rule), without bound. */
  function Horner(x: nat, s: string): nat
    requires AllDigits(s)
    decreases |s|
  {
    if s == [] then x else Horner(x * 10 + DigitValue(s[0]), s[1..])
  }

  lemma {:induction false} HornerSnoc(x: nat, s: string, c: char)
    requires AllDigits(s) && IsDigit(c)
    ensures AllDigits(s + [c]) && Horner(x, s + [c]) == 10 * Horner(x, s) + DigitValue(c)
    decreases |s|
  {
    if s != [] {
      assert (s + [c])[1..] == s[1..] + [c];
      HornerSnoc(x * 10 + DigitValue(s[0]), s[1..], c);
    }
  }

  /** From zero, Horner's rule gives the decimal value. */
  lemma {:induction false} HornerValue(s: string)
    requires AllDigits(s)
    ensures Horner(0, s) == DecimalValue(s)
    decreases |s|
  {
    if s != [] {
      var init := s[..|s| - 1];
      HornerValue(init);
      HornerSnoc(0, init, s[|s| - 1]);
      assert init + [s[|s| - 1]] == s;
    }
  }

  /** Reading more digits never makes the value smaller. */
  lemma {:induction false} HornerGrows(x: nat, s: string)
    requires AllDigits(s)
    ensures Horner(x, s) >= x
    decreases |s|
  {
    if s != [] {
      HornerGrows(x * 10 + DigitValue(s[0]), s[1..]);
    }
  }

  /**
   * leadingInt over digits followed by a non-digit reads exactly those digits, and fails exactly
   * when their value exceeds 2^63.
   */
  lemma {:induction false} LeadingIntReads(x: nat, body: string, rest: string)
    requires x <= TwoTo63 && AllDigits(body)
    requires rest == [] || !IsDigit(rest[0])
    ensures LeadingInt(body + rest, x)
      == if Horner(x, body) <= TwoTo63 then Some(Scan(Horner(x, body), rest)) else None
    decreases |body|
  {
    if body == [] {
      assert body + rest == rest;
    } else {
      var s := body + rest;
      assert s[0] == body[0] && s[1..] == body[1..] + rest;
      var y := x * 10 + DigitValue(body[0]);
      HornerGrows(y, body[1..]);
      if y <= TwoTo63 {
        LeadingIntReads(y, body[1..], rest);
      }
    }
  }

  /** A unit followed by a number (or by nothing) is split off exactly. */
  lemma {:induction false} UnitPrefixOf(u: string, tail: string)
    requires forall i :: 0 <= i < |u| ==> !IsNumberChar(u[i])
    requires tail == [] || IsNumberChar(tail[0])
    ensures UnitPrefix(u + tail) == (u, tail)
  {
    if u != [] {
      assert (u + tail)[1..] == u[1..] + tail;
      UnitPrefixOf(u[1..], tail);
      assert [u[0]] + u[1..] == u;
    } else {
      assert u + tail == tail;
    }
  }

  /** An unsigned integer and its unit make one component of exactly that many units. */
  lemma IntegerComponent(body: string, u: string, unit: nat, tail: string)
    requires body != [] && AllDigits(body)
    requires UnitNanos(u) == Some(unit) && u != []
    requires forall i :: 0 <= i < |u| ==> !IsNumberChar(u[i])
    requires tail == [] || IsNumberChar(tail[0])
    ensures var w := DecimalValue(body) * unit;
      Component(body + u + tail) == if w <= TwoTo63 then Some(Piece(w, tail)) else None
  {
    var s := body + u + tail;
    var s1 := u + tail;
    var v := DecimalValue(body);
    assert s == body + s1;
    assert s1[0] == u[0];
    LeadingIntReads(0, body, s1);
    HornerValue(body);
    if v <= TwoTo63 {
      UnitAfterInteger(s, v, u, unit, tail);
    } else {
      assert v * unit > TwoTo63 by { assert unit >= 1; }
    }
  }

  /** Once the integer part is read, the unit that follows it scales it. */
  lemma UnitAfterInteger(s: string, v: nat, u: string, unit: nat, tail: string)
    requires s != [] && IsDigit(s[0]) && v <= TwoTo63
    requires LeadingInt(s, 0) == Some(Scan(v, u + tail)) && |u + tail| < |s|
    requires UnitNanos(u) == Some(unit) && u != []
    requires forall i :: 0 <= i < |u| ==> !IsNumberChar(u[i])
    requires tail == [] || IsNumberChar(tail[0])
    ensures Component(s) == if v * unit <= TwoTo63 then Some(Piece(v * unit, tail)) else None
  {
    assert (u + tail)[0] == u[0];
    UnitPrefixOf(u, tail);
    LimitIsQuotient(u);
    DivBound(v, unit);
    var w := Scale(v, unit);
    if v <= Limit(unit) {
      assert Component(s) == if w <= TwoTo63 then Some(Piece(w, tail)) else None;
    } else {
      assert Component(s) == None;
    }
  }

  /**
   * A component that reads successfully adds its nanoseconds to the total, and the loop fails
   * once the total exceeds 2^63. (A total of exactly 2^64 wraps to zero in Go's uint64; that
   * case is left unstated here.)
   */
  lemma ComponentsStep(s: string, d: nat, p: Piece)
    requires s != [] && d <= TwoTo63 && Component(s) == Some(p)
    requires d + p.nanos < TwoTo64
    ensures d + p.nanos > TwoTo63 ==> Components(s, d) == None
    ensures d + p.nanos <= TwoTo63 ==> Components(s, d) == Components(p.rest, d + p.nanos)
  {
  }

  /**
   * A signed decimal integer followed by one unit reads as that many units when the product
   * fits in int64 (-2^63 itself included), and as an error otherwise.
   */
  lemma OneComponent(s: string, n: int, u: string, unit: nat)
    requires Atoi(s) == Some(n)
    requires UnitNanos(u) == Some(unit) && u != []
    requires forall i :: 0 <= i < |u| ==> !IsNumberChar(u[i])
    ensures ParseGoDuration(s + u) == if InInt64(n * unit) then Some(n * unit) else None
  {
    var signed := s[0] == '+' || s[0] == '-';
    var body := if signed then s[1..] else s;
    var rest := body + u;
    assert (s + u)[0] == s[0];
    assert signed ==> (s + u)[1..] == rest;
    assert !signed ==> s + u == rest;
    assert rest != "0" by { assert rest[|rest| - 1] == u[|u| - 1]; }
    var v := DecimalValue(body);
    assert v == if n < 0 then -n else n;
    var w := v * unit;
    MulNat(v, unit);
    IntegerComponent(body, u, unit, []);
    assert body + u + [] == rest;
    if w <= TwoTo63 {
      ComponentsStep(rest, 0, Piece(w, []));
    }
    if n < 0 {
      MulNeg(v, unit);
      assert n * unit == -w;
    } else {
      assert n * unit == w;
    }
  }

  lemma MulNat(a: int, b: int)
    requires a >= 0 && b >= 0
    ensures a * b >= 0
  {
  }

  lemma MulNeg(v: int, unit: int)
    ensures (-v) * unit == -(v * unit)
  {
  }

  /** An unsigned integer component adds that many units to the running total. */
  lemma IntegerStep(body: string, u: string, unit: nat, tail: string, d: nat)
    requires body != [] && AllDigits(body) && d <= TwoTo63
    requires UnitNanos(u) == Some(unit) && u != []
    requires forall i :: 0 <= i < |u| ==> !IsNumberChar(u[i])
    requires tail == [] || IsNumberChar(tail[0])
    requires d + DecimalValue(body) * unit <= TwoTo63
    ensures Components(body + u + tail, d) == Components(tail, d + DecimalValue(body) * unit)
  {
    var w := DecimalValue(body) * unit;
    MulNat(DecimalValue(body), unit);
    IntegerComponent(body, u, unit, tail);
    ComponentsStep(body + u + tail, d, Piece(w, tail));
  }

  /** Without a sign, the duration is the total of the components. */
  lemma Unsigned(s: string, d: nat)
    requires s != [] && IsDigit(s[0]) && s != "0"
    requires d <= MaxInt64 && Components(s, 0) == Some(d)
    ensures ParseGoDuration(s) == Some(d)
  {
  }

  /** One of Go's own examples: "90s" is a minute and a half. */
  lemma NinetySeconds()
    ensures ParseGoDuration("90s") == Some(90_000_000_000)
  {
    assert DecimalValue("90") == 90;
    IntegerComponent("90", "s", 1000_000_000, "");
    assert "90" + "s" + "" == "90s";
    ComponentsStep("90s", 0, Piece(90_000_000_000, ""));
  }

  /** Text that is not a duration, and a number without a unit, are errors. */
  lemma NotDurations()
    ensures ParseGoDuration("invalid") == None
    ensures ParseGoDuration("") == None
    ensures ParseGoDuration("1") == None
  {
    assert "1"[1..] == [];
    assert LeadingInt("1", 0) == Some(Scan(1, []));
  }
}
