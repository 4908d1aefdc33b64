/** The money parser `RequestMoneyAmount` relies on (`decimal.TryParse`,
    whose default style is `NumberStyles.Number`), reduced to the
    invariant-culture core: decimal digits with at most one decimal point and
    at least one digit, and one sign, either leading or trailing. A null line
    does not parse. `FormatInteger` is `decimal.ToString()` for whole amounts,
    which is what the callers in the tests type in. */
module AmountParsing {
  import opened Models

  predicate IsDigit(c: char)
  {
    '0' <= c <= '9'
  }

  predicate AllDigits(s: string)
  {
    forall i :: 0 <= i < |s| ==> IsDigit(s[i])
  }

  /** The number a string of decimal digits denotes, most significant first. */
  function DigitsValue(s: string): nat
    requires AllDigits(s)
  {
    if s == [] then 0
    else DigitsValue(s[..|s| - 1]) * 10 + (s[|s| - 1] as int - '0' as int)
  }

  function Pow10(n: nat): (p: nat)
    ensures p > 0
  {
    if n == 0 then 1 else 10 * Pow10(n - 1)
  }

  /** Position of the first occurrence of `c` in `s`. */
  function IndexOf(s: string, c: char): (r: Option<nat>)
    ensures r.Some? ==> r.value < |s| && s[r.value] == c && c !in s[..r.value]
    ensures r.None? ==> c !in s
  {
    if s == [] then None
    else if s[0] == c then Some(0)
    else
      match IndexOf(s[1..], c)
      case None => None
      case Some(i) =>
        assert s[..i + 1] == [s[0]] + s[1..][..i];
        Some(i + 1)
  }

  /** An unsigned amount: digits, optionally split by one decimal point. */
  function ParseUnsigned(s: string): Option<real>
  {
    match IndexOf(s, '.')
    case None =>
      if s != [] && AllDigits(s) then Some(DigitsValue(s) as real) else None
    case Some(p) =>
      var whole, fraction := s[..p], s[p + 1..];
      if |whole| + |fraction| > 0 && AllDigits(whole) && AllDigits(fraction)
      then Some(DigitsValue(whole) as real + DigitsValue(fraction) as real / Pow10(|fraction|) as real)
      else None
  }

  predicate IsSign(c: char)
  {
    c == '-' || c == '+'
  }

  /** The sign of a line and the unsigned text it applies to: a leading
      sign, else a trailing one, else `+`. */
  function SplitSign(s: string): (char, string)
  {
    if s != [] && IsSign(s[0]) then (s[0], s[1..])
    else if s != [] && IsSign(s[|s| - 1]) then (s[|s| - 1], s[..|s| - 1])
    else ('+', s)
  }

  /** `decimal.TryParse` on an input line: `None` when it fails. A null or
      empty line never parses. */
  function ParseDecimal(line: Option<string>): (r: Option<real>)
    ensures r.Some? ==> line.Some? && line.value != []
  {
    match line
    case None => None
    case Some(s) =>
      var (sign, unsigned) := SplitSign(s);
      match ParseUnsigned(unsigned)
      case None => None
      case Some(v) => if sign == '-' then Some(-v) else Some(v)
  }

  /** The digit character for `d`. */
  function DigitChar(d: nat): (c: char)
    requires d < 10
    ensures IsDigit(c) && c as int - '0' as int == d
  {
    ('0' as int + d) as char
  }

  /** The decimal digits of `n`, without leading zeros. */
  function NatToString(n: nat): string
    decreases n
  {
    if n < 10 then [DigitChar(n)] else NatToString(n / 10) + [DigitChar(n % 10)]
  }

  /** `ToString()` of a whole decimal amount. */
  function FormatInteger(i: int): string
  {
    if i < 0 then "-" + NatToString(-i) else NatToString(i)
  }

  lemma {:induction false} NatToStringDigits(n: nat)
    ensures var s := NatToString(n);
            s != [] && AllDigits(s) && DigitsValue(s) == n
    decreases n
  {
    var s := NatToString(n);
    if n >= 10 {
      NatToStringDigits(n / 10);
      assert s[..|s| - 1] == NatToString(n / 10);
    }
  }

  /** Parsing undoes formatting: the line `n.ToString()` parses back to `n`. */
  lemma {:induction false} ParseNatToString(n: nat)
    ensures ParseUnsigned(NatToString(n)) == Some(n as real)
  {
    NatToStringDigits(n);
  }

  /** Round trip for every whole amount, negative ones included. */
  lemma {:induction false} ParseFormatInteger(i: int)
    ensures ParseDecimal(Some(FormatInteger(i))) == Some(i as real)
  {
    if i < 0 {
      ParseNatToString(-i);
      assert ("-" + NatToString(-i))[1..] == NatToString(-i);
    } else {
      ParseNatToString(i);
      NatToStringDigits(i);
      var t := NatToString(i);
      assert IsDigit(t[0]) && IsDigit(t[|t| - 1]);
    }
  }

  /** Malformed lines from the tests fail to parse, as does end of input. */
  lemma {:induction false} MalformedLinesDoNotParse()
    ensures ParseDecimal(None) == None
    ensures ParseDecimal(Some("")) == None
    ensures ParseDecimal(Some("abc")) == None
    ensures ParseDecimal(Some("a123")) == None
    ensures ParseDecimal(Some("--123")) == None
  {
    assert !IsDigit('a') && !IsDigit('-');
    assert SplitSign("abc") == ('+', "abc");
    assert '.' !in "abc" && !AllDigits("abc") by {
      assert "abc"[0] == 'a';
    }
    assert SplitSign("a123") == ('+', "a123");
    assert '.' !in "a123" && !AllDigits("a123") by {
      assert "a123"[0] == 'a';
    }
    assert SplitSign("--123") == ('-', "-123");
    assert '.' !in "-123" && !AllDigits("-123") by {
      assert "-123"[0] == '-';
    }
  }

  /** A sign may also follow the digits, but not both precede and follow
      them. */
  lemma {:induction false} TrailingSignParses()
    ensures ParseDecimal(Some("5+")) == Some(5.0)
    ensures ParseDecimal(Some("5-")) == Some(-5.0)
    ensures ParseDecimal(Some("-5-")) == None
  {
    assert "5+"[..1] == "5" && "5-"[..1] == "5";
    assert "-5-"[1..] == "5-";
    assert !IsDigit('-');
    assert ParseUnsigned("5") == Some(5.0) by {
      assert DigitsValue("5") == DigitsValue("5"[..0]) * 10 + 5;
    }
  }
}
