/**
 * Numerals: how the scraper prints page numbers, tile indexes and
 * timestamps into URLs and identifiers (`${n}` in a template literal), and
 * how JavaScript's `parseInt` reads a numeral back (used for the
 * scrape-interval setting).
 */
module Numerals {
  import opened JsValues

  predicate IsDigit(c: char)
  {
    '0' <= c <= '9'
  }

  predicate AllDigits(s: string)
  {
    forall i :: 0 <= i < |s| ==> IsDigit(s[i])
  }

  function DigitChar(d: nat): (c: char)
    requires d < 10
  {
    (48 + d) as char
  }

  /** `${n}` for a non-negative integer: its decimal numeral, no leading zeros. */
  function Dec(n: nat): (s: string)
    ensures |s| > 0 && AllDigits(s)
    ensures s[0] == '0' ==> n == 0
    decreases n
  {
    if n < 10 then [DigitChar(n)] else Dec(n / 10) + [DigitChar(n % 10)]
  }

  /** A digit of radix 10, or of radix 16 when `hex` holds. */
  predicate IsRadixDigit(c: char, hex: bool)
  {
    IsDigit(c) || (hex && ('a' <= c <= 'f' || 'A' <= c <= 'F'))
  }

  function RadixDigitValue(c: char, hex: bool): (v: nat)
    requires IsRadixDigit(c, hex)
    ensures v < (if hex then 16 else 10)
  {
    if IsDigit(c) then c as int - '0' as int
    else if 'a' <= c <= 'f' then c as int - 'a' as int + 10
    else c as int - 'A' as int + 10
  }

  /** The value of a numeral all of whose characters are digits of the radix. */
  function NumeralValue(s: string, hex: bool): nat
    requires forall i :: 0 <= i < |s| ==> IsRadixDigit(s[i], hex)
  {
    if |s| == 0 then 0
    else NumeralValue(s[..|s| - 1], hex) * (if hex then 16 else 10) + RadixDigitValue(s[|s| - 1], hex)
  }

  /** Reading a printed numeral back gives the number that was printed. */
  lemma {:induction false} DecRoundTrip(n: nat)
    ensures NumeralValue(Dec(n), false) == n
  {
    if n >= 10 {
      var s := Dec(n);
      assert s[..|s| - 1] == Dec(n / 10);
      DecRoundTrip(n / 10);
    }
  }

  lemma DecInjective(a: nat, b: nat)
    ensures Dec(a) == Dec(b) ==> a == b
  {
    DecRoundTrip(a);
    DecRoundTrip(b);
  }

  lemma {:induction false} DashAfterNumeral(a: string, b: string)
    requires AllDigits(a)
    ensures IndexOf(a + "-" + b, '-') == |a|
  {
    if |a| > 0 {
      assert (a + "-" + b)[1..] == a[1..] + "-" + b;
      DashAfterNumeral(a[1..], b);
    }
  }

  /** `a-b` splits back into its parts when `a` is a numeral. */
  lemma DashSplit(a: string, b: string, c: string, d: string)
    requires AllDigits(a) && AllDigits(c)
    requires a + "-" + b == c + "-" + d
    ensures a == c && b == d
  {
    var x := a + "-" + b;
    DashAfterNumeral(a, b);
    DashAfterNumeral(c, d);
    assert a == x[..|a|];
    assert c == x[..|c|];
    assert b == x[|a| + 1..];
    assert d == x[|c| + 1..];
  }

  /** Two numerals joined by a dash determine both numbers. */
  lemma NumeralPairInjective(i: nat, j: nat, i': nat, j': nat)
    requires Dec(i) + "-" + Dec(j) == Dec(i') + "-" + Dec(j')
    ensures i == i' && j == j'
  {
    DashSplit(Dec(i), Dec(j), Dec(i'), Dec(j'));
    DecInjective(i, i');
    DecInjective(j, j');
  }

  /**
   * The white space `parseInt` skips before the numeral: ECMAScript's
   * WhiteSpace and LineTerminator characters, the Zs category included.
   */
  predicate IsJsWhitespace(c: char)
  {
    || c == ' ' || c == '\t' || c == '\n' || c == '\r' || c == '\U{B}' || c == '\U{C}'
    || c == '\U{A0}' || c == '\U{1680}' || '\U{2000}' <= c <= '\U{200A}' || c == '\U{2028}' || c == '\U{2029}'
    || c == '\U{202F}' || c == '\U{205F}' || c == '\U{3000}' || c == '\U{FEFF}'
  }

  predicate AllWhitespace(w: string)
  {
    forall i :: 0 <= i < |w| ==> IsJsWhitespace(w[i])
  }

  /** `s` without its leading white space. */
  function TrimStart(s: string): (r: string)
    ensures |r| <= |s| && r == s[|s| - |r|..]
    ensures |r| > 0 ==> !IsJsWhitespace(r[0])
    ensures forall i :: 0 <= i < |s| - |r| ==> IsJsWhitespace(s[i])
  {
    if |s| > 0 && IsJsWhitespace(s[0]) then TrimStart(s[1..]) else s
  }

  /** The longest prefix of `s` made of radix digits. */
  function DigitRun(s: string, hex: bool): (r: string)
    ensures |r| <= |s| && r == s[..|r|]
    ensures forall i :: 0 <= i < |r| ==> IsRadixDigit(r[i], hex)
    ensures |r| < |s| ==> !IsRadixDigit(s[|r|], hex)
  {
    if |s| > 0 && IsRadixDigit(s[0], hex) then [s[0]] + DigitRun(s[1..], hex) else ""
  }

  /**
   * `parseInt(s)` with no radix: skip leading white space, read an optional
   * sign and an optional `0x`/`0X` prefix (which selects radix 16), then the
   * longest run of digits; `None` stands for `NaN` (no digits at all).
   * Values beyond 2^53 lose precision in JavaScript; here they are exact.
   */
  function ParseInt(s: string): (r: Option<int>)
  {
    ParseSigned(TrimStart(s))
  }

  /** The sign, then the magnitude. */
  function ParseSigned(t: string): Option<int>
  {
    var u := if |t| > 0 && (t[0] == '-' || t[0] == '+') then t[1..] else t;
    match ParseMagnitude(u)
    case None => None
    case Some(m) => Some(if |t| > 0 && t[0] == '-' then -(m as int) else m as int)
  }

  /** The `0x` prefix, then the longest run of digits of the radix. */
  function ParseMagnitude(u: string): Option<nat>
  {
    var hex := |u| >= 2 && u[0] == '0' && (u[1] == 'x' || u[1] == 'X');
    var digits := DigitRun(if hex then u[2..] else u, hex);
    if |digits| == 0 then None else Some(NumeralValue(digits, hex))
  }

  lemma {:induction false} DigitRunOfNumeral(s: string)
    requires AllDigits(s)
    ensures DigitRun(s, false) == s
  {
    if |s| > 0 {
      DigitRunOfNumeral(s[1..]);
    }
  }

  /** `parseInt` reads back what `${n}` printed. */
  lemma ParseIntDec(n: nat)
    ensures ParseInt(Dec(n)) == Some(n)
  {
    var s := Dec(n);
    assert !IsJsWhitespace(s[0]);
    assert TrimStart(s) == s;
    assert s[0] != '-' && s[0] != '+';
    assert |s| >= 2 ==> s[0] != '0';
    DigitRunOfNumeral(s);
    DecRoundTrip(n);
  }

  /** Leading white space is skipped up to the first other character. */
  lemma {:induction false} TrimStartSkipsWhitespace(w: string, s: string)
    requires AllWhitespace(w)
    requires |s| > 0 ==> !IsJsWhitespace(s[0])
    ensures TrimStart(w + s) == s
  {
    if |w| > 0 {
      assert (w + s)[1..] == w[1..] + s;
      TrimStartSkipsWhitespace(w[1..], s);
    } else {
      assert w + s == s;
    }
  }

  /** The digit run of a numeral followed by a non-digit is the numeral. */
  lemma {:induction false} DigitRunStops(digits: string, rest: string)
    requires AllDigits(digits)
    requires |rest| > 0 ==> !IsDigit(rest[0])
    ensures DigitRun(digits + rest, false) == digits
  {
    if |digits| > 0 {
      assert (digits + rest)[1..] == digits[1..] + rest;
      DigitRunStops(digits[1..], rest);
    } else {
      assert digits + rest == rest;
    }
  }

  /** Leading white space is skipped; the rest is read as it stands. */
  lemma ParseIntSkipsWhitespace(w: string, t: string)
    requires AllWhitespace(w)
    requires |t| > 0 ==> !IsJsWhitespace(t[0])
    ensures ParseInt(w + t) == ParseSigned(t)
  {
    TrimStartSkipsWhitespace(w, t);
  }

  /** What a decimal numeral followed by a non-digit contributes to `parseInt`. */
  predicate NumeralThenStop(n: nat, rest: string)
  {
    |rest| > 0 ==> !IsDigit(rest[0]) && (n == 0 ==> rest[0] != 'x' && rest[0] != 'X')
  }

  /** A decimal numeral followed by a non-digit has that numeral's magnitude. */
  lemma MagnitudeOfNumeral(n: nat, rest: string)
    requires NumeralThenStop(n, rest)
    ensures ParseMagnitude(Dec(n) + rest) == Some(n)
  {
    var u := Dec(n) + rest;
    assert |u| >= 2 && u[0] == '0' ==> n == 0 && u[1] == rest[0];
    DigitRunStops(Dec(n), rest);
    DecRoundTrip(n);
  }

  /**
   * `parseInt(w + sign + n + rest)`: leading white space and a sign are
   * read, then the decimal numeral, and whatever follows it is ignored.
   * A `0` followed by `x` would switch to hexadecimal, so that case is
   * excluded.
   */
  lemma ParseIntReadsNumeral(w: string, sign: string, n: nat, rest: string)
    requires AllWhitespace(w)
    requires sign == "" || sign == "+" || sign == "-"
    requires NumeralThenStop(n, rest)
    ensures ParseInt(w + sign + Dec(n) + rest) == Some(if sign == "-" then -(n as int) else n as int)
  {
    var t := sign + (Dec(n) + rest);
    calc {
      ParseInt(w + sign + Dec(n) + rest);
      { ConcatAssoc(w, sign, Dec(n)); ConcatAssoc(w, sign + Dec(n), rest); ConcatAssoc(sign, Dec(n), rest); }
      ParseInt(w + t);
      { SignedStart(sign, n, rest); ParseIntSkipsWhitespace(w, t); }
      ParseSigned(t);
      { SignedNumeral(sign, n, rest); }
      Some(if sign == "-" then -(n as int) else n as int);
    }
  }

  lemma SignedStart(sign: string, n: nat, rest: string)
    requires sign == "" || sign == "+" || sign == "-"
    ensures var t := sign + (Dec(n) + rest); |t| > 0 && !IsJsWhitespace(t[0])
  {
    var u := Dec(n) + rest;
    assert IsDigit(u[0]);
    assert (sign + u)[0] == if sign == "" then u[0] else sign[0];
  }

  lemma SignedNumeral(sign: string, n: nat, rest: string)
    requires sign == "" || sign == "+" || sign == "-"
    requires NumeralThenStop(n, rest)
    ensures ParseSigned(sign + (Dec(n) + rest)) == Some(if sign == "-" then -(n as int) else n as int)
  {
    var u := Dec(n) + rest;
    MagnitudeOfNumeral(n, rest);
    if sign == "" {
      assert sign + u == u;
      assert IsDigit(u[0]);
      UnsignedMagnitude(u, n);
    } else {
      assert sign == [sign[0]];
      SignedMagnitude(sign[0], u, n);
    }
  }

  /** Text that starts with a digit is read without a sign. */
  lemma UnsignedMagnitude(u: string, m: nat)
    requires |u| > 0 && IsDigit(u[0]) && ParseMagnitude(u) == Some(m)
    ensures ParseSigned(u) == Some(m)
  {
  }

  /** A sign in front of a magnitude negates it or leaves it as it is. */
  lemma SignedMagnitude(c: char, u: string, m: nat)
    requires (c == '-' || c == '+') && ParseMagnitude(u) == Some(m)
    ensures ParseSigned([c] + u) == Some(if c == '-' then -(m as int) else m as int)
  {
    assert ([c] + u)[1..] == u;
  }

  /** A setting whose first visible character is no sign and no digit reads as `NaN`. */
  lemma ParseIntNoNumeral(w: string, s: string)
    requires AllWhitespace(w)
    requires |s| > 0 ==> !IsJsWhitespace(s[0]) && !IsDigit(s[0]) && s[0] != '-' && s[0] != '+'
    ensures ParseInt(w + s).None?
  {
    ParseIntSkipsWhitespace(w, s);
    assert DigitRun(s, false) == "";
  }
}
