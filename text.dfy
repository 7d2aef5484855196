/**
 * The pieces of Go's strings, strconv and regexp packages that calgo's parsers rely on,
 * written over Dafny strings (sequences of Unicode scalar values).
 */
module Text {
  import opened Wrappers

  // ---------------------------------------------------------------------------
  // Character classes
  // ---------------------------------------------------------------------------

  /** unicode.IsSpace: the Latin-1 spaces plus the other Unicode White_Space runes. */
  predicate IsSpace(c: char)
  {
    || c == '\t' || c == '\n' || c == '\U{B}' || c == '\U{C}' || c == '\r' || c == ' '
    || c == '\U{85}' || c == '\U{A0}' || c == '\U{1680}'
    || ('\U{2000}' <= c <= '\U{200A}')
    || c == '\U{2028}' || c == '\U{2029}' || c == '\U{202F}' || c == '\U{205F}' || c == '\U{3000}'
  }

  /** The class `\s` of Go's regexp syntax (RE2): ASCII space, tab, newline, form feed, carriage return. */
  predicate IsRegexSpace(c: char)
  {
    c == ' ' || c == '\t' || c == '\n' || c == '\U{C}' || c == '\r'
  }

  /** The class `\d` of Go's regexp syntax: ASCII digits only. */
  predicate IsDigit(c: char)
  {
    '0' <= c <= '9'
  }

  predicate AllDigits(s: string)
  {
    forall i :: 0 <= i < |s| ==> IsDigit(s[i])
  }

  predicate AllRegexSpace(s: string)
  {
    forall i :: 0 <= i < |s| ==> IsRegexSpace(s[i])
  }

  predicate AllSpace(s: string)
  {
    forall i :: 0 <= i < |s| ==> IsSpace(s[i])
  }

  // ---------------------------------------------------------------------------
  // strings.TrimSpace, strings.ToLower, strings.HasPrefix
  // ---------------------------------------------------------------------------

  /** Number of white-space characters s starts with. */
  function LeadingSpaces(s: string): (n: nat)
    ensures n <= |s| && AllSpace(s[..n])
    ensures n == |s| || !IsSpace(s[n])
  {
    if s != [] && IsSpace(s[0]) then 1 + LeadingSpaces(s[1..]) else 0
  }

  /** Number of white-space characters s ends with. */
  function TrailingSpaces(s: string): (n: nat)
    ensures n <= |s| && AllSpace(s[|s| - n..])
    ensures n == |s| || !IsSpace(s[|s| - 1 - n])
  {
    if s != [] && IsSpace(s[|s| - 1]) then
      var n := TrailingSpaces(s[..|s| - 1]);
      assert s[|s| - 1 - n..] == s[..|s| - 1][|s| - 1 - n..] + [s[|s| - 1]];
      1 + n
    else 0
  }

  /** Drops leading white space: what is left is a suffix of s that does not start with a space. */
  function TrimLeftSpace(s: string): (r: string)
    ensures |r| <= |s| && r == s[|s| - |r|..]
    ensures AllSpace(s[..|s| - |r|])
    ensures r == [] || !IsSpace(r[0])
  {
    s[LeadingSpaces(s)..]
  }

  /** Drops trailing white space: what is left is a prefix of s that does not end with a space. */
  function TrimRightSpace(s: string): (r: string)
    ensures |r| <= |s| && r == s[..|r|]
    ensures AllSpace(s[|r|..])
    ensures r == [] || !IsSpace(r[|r| - 1])
  {
    s[..|s| - TrailingSpaces(s)]
  }

  /**
   * strings.TrimSpace: s with its leading and trailing white space cut. What is kept is the slice
   * of s after its leading white space, what follows it is white space, and it neither starts nor
   * ends with white space.
   */
  function TrimSpace(s: string): (r: string)
    ensures |r| <= |s|
    ensures var a := LeadingSpaces(s);
      && a + |r| <= |s| && r == s[a..a + |r|]
      && AllSpace(s[..a]) && AllSpace(s[a + |r|..])
    ensures r == [] || (!IsSpace(r[0]) && !IsSpace(r[|r| - 1]))
  {
    var a := LeadingSpaces(s);
    var l := TrimLeftSpace(s);
    var r := TrimRightSpace(l);
    assert r != [] ==> r[0] == l[0];
    assert l == s[a..];
    assert r == s[a..a + |r|];
    assert s[a + |r|..] == l[|r|..];
    r
  }

  /** Text that neither starts nor ends with white space is left as it is. */
  lemma TrimSpaceNoop(s: string)
    requires s == [] || (!IsSpace(s[0]) && !IsSpace(s[|s| - 1]))
    ensures TrimSpace(s) == s
  {
  }

  /** TrimSpace leaves nothing exactly when s is white space only. */
  lemma TrimSpaceEmpty(s: string)
    ensures TrimSpace(s) == [] <==> AllSpace(s)
  {
    var l := TrimLeftSpace(s);
    var r := TrimRightSpace(l);
    var i := |s| - |l|;
    if r == [] {
      // l is all white space, and it cannot start with any: nothing is left after the left trim
      assert l == l[|r|..];
      assert l == [];
      assert s[..i] == s;
    }
  }

  /** Trimming twice is trimming once. */
  lemma TrimSpaceIdempotent(s: string)
    ensures TrimSpace(TrimSpace(s)) == TrimSpace(s)
  {
    var r := TrimSpace(s);
    assert TrimLeftSpace(r) == r;
    assert TrimRightSpace(r) == r;
  }

  /**
   * unicode.ToLower on one rune, as far as the ASCII-only patterns below can tell: ASCII capitals,
   * and the two non-ASCII runes that Go lowers into ASCII (U+0130 to 'i', the Kelvin sign U+212A
   * to 'k'). Every other rune is kept; Go may map it to another non-ASCII rune, which no pattern
   * here can match either way.
   */
  function LowerChar(c: char): (r: char)
    ensures !('A' <= r <= 'Z')
    ensures c != r ==> ('A' <= c <= 'Z' || c == '\U{130}' || c == '\U{212A}')
  {
    if 'A' <= c <= 'Z' then (c as int + 32) as char
    else if c == '\U{130}' then 'i'
    else if c == '\U{212A}' then 'k'
    else c
  }

  /** strings.ToLower */
  function ToLower(s: string): (r: string)
    ensures |r| == |s|
    ensures forall i :: 0 <= i < |s| ==> r[i] == LowerChar(s[i])
  {
    if s == [] then [] else [LowerChar(s[0])] + ToLower(s[1..])
  }

  /** Text that strings.ToLower leaves as it is. */
  predicate NoUpper(s: string)
  {
    forall i :: 0 <= i < |s| ==> LowerChar(s[i]) == s[i]
  }

  lemma ToLowerNoUpper(s: string)
    requires NoUpper(s)
    ensures ToLower(s) == s
  {
  }

  lemma NoUpperConcat(a: string, b: string)
    requires NoUpper(a) && NoUpper(b)
    ensures NoUpper(a + b)
  {
    forall i | 0 <= i < |a + b|
      ensures LowerChar((a + b)[i]) == (a + b)[i]
    {
      if i < |a| { assert (a + b)[i] == a[i]; } else { assert (a + b)[i] == b[i - |a|]; }
    }
  }

  predicate HasPrefix(s: string, prefix: string)
  {
    |prefix| <= |s| && s[..|prefix|] == prefix
  }

  // ---------------------------------------------------------------------------
  // Maximal spans (the greedy repetitions of the patterns)
  // ---------------------------------------------------------------------------

  /** Length of the longest prefix of s made of `\s` characters. */
  function SpaceSpan(s: string): (n: nat)
    ensures n <= |s| && AllRegexSpace(s[..n])
    ensures n == |s| || !IsRegexSpace(s[n])
  {
    if s != [] && IsRegexSpace(s[0]) then 1 + SpaceSpan(s[1..]) else 0
  }

  /** Length of the longest prefix of s made of digits. */
  function DigitSpan(s: string): (n: nat)
    ensures n <= |s| && AllDigits(s[..n])
    ensures n == |s| || !IsDigit(s[n])
  {
    if s != [] && IsDigit(s[0]) then 1 + DigitSpan(s[1..]) else 0
  }

  /** A span of spaces followed by a non-space is measured exactly. */
  lemma {:induction false} SpaceSpanOf(a: string, b: string)
    requires AllRegexSpace(a)
    requires b == [] || !IsRegexSpace(b[0])
    ensures SpaceSpan(a + b) == |a|
  {
    if a != [] {
      assert (a + b)[1..] == a[1..] + b;
      SpaceSpanOf(a[1..], b);
    } else {
      assert a + b == b;
    }
  }

  /** A span of digits followed by a non-digit is measured exactly. */
  lemma {:induction false} DigitSpanOf(a: string, b: string)
    requires AllDigits(a)
    requires b == [] || !IsDigit(b[0])
    ensures DigitSpan(a + b) == |a|
  {
    if a != [] {
      assert (a + b)[1..] == a[1..] + b;
      DigitSpanOf(a[1..], b);
    } else {
      assert a + b == b;
    }
  }

  // ---------------------------------------------------------------------------
  // Decimal numbers: strconv.Atoi and strconv.Itoa on 64-bit int
  // ---------------------------------------------------------------------------

  const MinInt64: int := -0x8000_0000_0000_0000
  const MaxInt64: int := 0x7FFF_FFFF_FFFF_FFFF

  predicate InInt64(x: int)
  {
    MinInt64 <= x <= MaxInt64
  }

  /** Two's-complement wrap-around of a mathematical integer into int64, as Go's arithmetic does. */
  function WrapInt64(x: int): (r: int)
    ensures InInt64(r)
    ensures (x - r) % 0x1_0000_0000_0000_0000 == 0
    ensures InInt64(x) ==> r == x
  {
    (x - MinInt64) % 0x1_0000_0000_0000_0000 + MinInt64
  }

  function DigitValue(c: char): nat
    requires IsDigit(c)
  {
    c as int - '0' as int
  }

  function DigitChar(d: nat): (c: char)
    requires d < 10
    ensures IsDigit(c) && DigitValue(c) == d
  {
    ('0' as int + d) as char
  }

  /** The value of a string of decimal digits (leading zeros allowed). */
  function DecimalValue(s: string): nat
    requires AllDigits(s)
  {
    if s == [] then 0 else 10 * DecimalValue(s[..|s| - 1]) + DigitValue(s[|s| - 1])
  }

  /** A number of k digits is below 10^k. */
  lemma DecimalValueBound(s: string)
    requires AllDigits(s)
    ensures DecimalValue(s) < Pow10(|s|)
  {
    if s != [] { DecimalValueBound(s[..|s| - 1]); }
  }

  /** Appending a digit multiplies by ten and adds it. */
  lemma DecimalValueSnoc(a: string, c: char)
    requires AllDigits(a) && IsDigit(c)
    ensures AllDigits(a + [c]) && DecimalValue(a + [c]) == 10 * DecimalValue(a) + DigitValue(c)
  {
    assert (a + [c])[..|a|] == a;
  }

  function Pow10(k: nat): (r: nat)
    ensures r >= 1
  {
    if k == 0 then 1 else 10 * Pow10(k - 1)
  }

  /**
   * strconv.Atoi: an optional sign followed by at least one ASCII digit, whose value fits in a
   * 64-bit int; anything else (including an out-of-range number) is an error.
   */
  function Atoi(s: string): (r: Option<int>)
    ensures r.Some? ==> InInt64(r.value)
    ensures r.Some? ==> var start := if s != [] && (s[0] == '+' || s[0] == '-') then 1 else 0;
      start < |s| && AllDigits(s[start..])
    ensures s != [] && AllDigits(s) ==>
      r == if DecimalValue(s) <= MaxInt64 then Some(DecimalValue(s)) else None
    ensures |s| >= 2 && s[0] == '+' && AllDigits(s[1..]) ==>
      r == if DecimalValue(s[1..]) <= MaxInt64 then Some(DecimalValue(s[1..])) else None
    ensures |s| >= 2 && s[0] == '-' && AllDigits(s[1..]) ==>
      r == if InInt64(-(DecimalValue(s[1..]) as int)) then Some(-(DecimalValue(s[1..]) as int)) else None
  {
    if s != [] && (s[0] == '+' || s[0] == '-') then
      var body := s[1..];
      if body != [] && AllDigits(body) then
        var v: int := if s[0] == '-' then -(DecimalValue(body) as int) else DecimalValue(body);
        if InInt64(v) then Some(v) else None
      else None
    else if s != [] && AllDigits(s) && DecimalValue(s) <= MaxInt64 then Some(DecimalValue(s))
    else None
  }

  /** Text that does not end in a digit is no number. */
  lemma AtoiNeedsLastDigit(s: string)
    requires s == [] || !IsDigit(s[|s| - 1])
    ensures Atoi(s).None?
  {
  }

  /** A number starts with a sign or a digit and ends with a digit. */
  lemma AtoiEdges(s: string)
    requires Atoi(s).Some?
    ensures s != [] && IsDigit(s[|s| - 1]) && (IsDigit(s[0]) || s[0] == '+' || s[0] == '-')
  {
  }

  /** The decimal digits of n, without leading zeros. */
  function FormatNat(n: nat): (r: string)
    ensures r != [] && AllDigits(r) && DecimalValue(r) == n
    ensures r[0] == '0' ==> n == 0
  {
    if n < 10 then [DigitChar(n)]
    else
      var prefix := FormatNat(n / 10);
      var r := prefix + [DigitChar(n % 10)];
      assert r[..|r| - 1] == prefix;
      r
  }

  /** strconv.Itoa, which is also what fmt's %d prints. */
  function FormatInt(n: int): (r: string)
    ensures r != [] && (r[0] == '-' <==> n < 0)
    ensures var digits := if n < 0 then r[1..] else r;
      digits != [] && AllDigits(digits) && DecimalValue(digits) == if n < 0 then -n else n
    ensures var digits := if n < 0 then r[1..] else r;
      digits[0] == '0' ==> n == 0
  {
    if n < 0 then "-" + FormatNat(-n) else FormatNat(n)
  }

  /** Itoa and Atoi are inverse on every 64-bit int. */
  lemma AtoiFormatInt(n: int)
    requires InInt64(n)
    ensures Atoi(FormatInt(n)) == Some(n)
  {
    if n < 0 {
      var body := FormatNat(-n);
      assert FormatInt(n)[1..] == body;
    }
  }
}
