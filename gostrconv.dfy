/**
 * Conversions of Go's strconv package as the tool uses them: Itoa for port
 * numbers in addresses, Atoi (and, as intended, ParseUint in base 8) for the
 * mode argument of chmod.  The parsers read the digits left to right and
 * stop at the first problem: a character that is not a digit is a syntax
 * error, a value past the limit a range error.  Error messages quote the
 * input the way strconv.Quote does.
 */
module GoStrconv {
  import opened Wrappers

  const MinInt64: int := -0x8000_0000_0000_0000
  const MaxInt64: int := 0x7fff_ffff_ffff_ffff
  const MaxUint64: int := 0xffff_ffff_ffff_ffff

  function Pow(b: nat, n: nat): (r: nat)
    ensures b >= 1 ==> r >= 1
  {
    if n == 0 then 1 else b * Pow(b, n - 1)
  }

  /** A digit of the base, for the bases up to ten the tool parses. */
  predicate IsBaseDigit(c: char, base: nat)
  {
    '0' <= c && (c as int) < '0' as int + base
  }

  predicate AllBaseDigits(s: string, base: nat)
  {
    forall i :: 0 <= i < |s| ==> IsBaseDigit(s[i], base)
  }

  predicate IsDigit(c: char)
  {
    IsBaseDigit(c, 10)
  }

  predicate AllDigits(s: string)
  {
    AllBaseDigits(s, 10)
  }

  /** The value of a string of digits of the base, most significant first. */
  function BaseValue(s: string, base: nat): nat
    requires AllBaseDigits(s, base)
  {
    if |s| == 0 then 0
    else BaseValue(s[..|s| - 1], base) * base + (s[|s| - 1] as int - '0' as int)
  }

  function DecimalValue(s: string): nat
    requires AllDigits(s)
  {
    BaseValue(s, 10)
  }

  function DigitChar(d: nat): (c: char)
    requires d < 10
    ensures IsDigit(c) && c as int - '0' as int == d
  {
    ('0' as int + d) as char
  }

  /** strconv.Itoa of a non-negative value: its shortest decimal digits. */
  function Itoa(n: nat): (r: string)
    ensures |r| >= 1 && AllDigits(r)
    ensures r[0] == '0' ==> n == 0 && r == "0"
  {
    if n < 10 then [DigitChar(n)]
    else Itoa(n / 10) + [DigitChar(n % 10)]
  }

  /** Reading back the digits Itoa writes gives the number. */
  lemma {:induction false} DecimalValueItoa(n: nat)
    ensures DecimalValue(Itoa(n)) == n
    decreases n
  {
    if n >= 10 {
      DecimalValueItoa(n / 10);
      var r := Itoa(n);
      assert r[..|r| - 1] == Itoa(n / 10);
      assert BaseValue(Itoa(n / 10), 10) == n / 10;
      assert DecimalValue(r) == BaseValue(Itoa(n / 10), 10) * 10 + n % 10;
      assert n == n / 10 * 10 + n % 10;
    } else {
      var r := Itoa(n);
      assert r == [DigitChar(n)] && r[..0] == "";
      assert BaseValue(r, 10) == BaseValue(r[..0], 10) * 10 + n;
    }
  }

  // ---------------------------------------------------------------- Quote

  predicate IsControl(c: char)
  {
    c as int < 0x20 || c as int == 0x7f
  }

  function HexDigit(d: nat): (c: char)
    requires d < 16
    ensures !IsControl(c)
  {
    if d < 10 then ('0' as int + d) as char else ('a' as int + d - 10) as char
  }

  /**
   * How strconv.Quote writes one character: the quote and the backslash are
   * escaped, the control characters with their short escape or as \xHH, and
   * every other character as itself.
   */
  function QuoteChar(c: char): (e: string)
    ensures forall i :: 0 <= i < |e| ==> !IsControl(e[i])
    ensures !IsControl(c) && c != '"' && c != '\\' ==> e == [c]
  {
    if c == '"' then "\\\""
    else if c == '\\' then "\\\\"
    else if c as int == 7 then "\\a"
    else if c as int == 8 then "\\b"
    else if c as int == 12 then "\\f"
    else if c == '\n' then "\\n"
    else if c == '\r' then "\\r"
    else if c == '\t' then "\\t"
    else if c as int == 11 then "\\v"
    else if IsControl(c) then "\\x" + [HexDigit(c as int / 16), HexDigit(c as int % 16)]
    else [c]
  }

  function QuoteBody(s: string): (r: string)
    ensures forall i :: 0 <= i < |r| ==> !IsControl(r[i])
  {
    if |s| == 0 then "" else QuoteBody(s[..|s| - 1]) + QuoteChar(s[|s| - 1])
  }

  /** strconv.Quote: the text between double quotes, escaped so that it stays on one line. */
  function Quote(s: string): (r: string)
    ensures |r| >= 2 && r[0] == '"' && r[|r| - 1] == '"'
    ensures forall i :: 0 <= i < |r| ==> !IsControl(r[i])
  {
    "\"" + QuoteBody(s) + "\""
  }

  /** Text with no quote, backslash or control character is quoted verbatim. */
  lemma {:induction false} QuotePlain(s: string)
    requires forall i :: 0 <= i < |s| ==> !IsControl(s[i]) && s[i] != '"' && s[i] != '\\'
    ensures Quote(s) == "\"" + s + "\""
  {
    QuoteBodyPlain(s);
  }

  lemma {:induction false} QuoteBodyPlain(s: string)
    requires forall i :: 0 <= i < |s| ==> !IsControl(s[i]) && s[i] != '"' && s[i] != '\\'
    ensures QuoteBody(s) == s
  {
    if |s| > 0 {
      QuoteBodyPlain(s[..|s| - 1]);
      assert s == s[..|s| - 1] + [s[|s| - 1]];
    }
  }

  /** A quote inside the argument is escaped: 6"4 is written "6\"4". */
  lemma QuoteEscapesQuote()
    ensures Quote("6\"4") == "\"6\\\"4\""
  {
    var s := "6\"4";
    assert s[..2] == "6\"" && s[..2][..1] == "6" && s[..2][..1][..0] == "";
    assert QuoteBody("6") == "6";
    assert QuoteBody("6\"") == "6\\\"";
    assert QuoteBody(s) == "6\\\"4";
  }

  // ------------------------------------------------------------ NumError

  /** strconv's *NumError: the function, the input, and whether the range (rather than the syntax) was wrong. */
  datatype NumError = NumError(fn: string, num: string, outOfRange: bool)

  /** NumError's Error(): "strconv.<fn>: parsing <quoted input>: <reason>". */
  function ErrorText(e: NumError): string
  {
    "strconv." + e.fn + ": parsing " + Quote(e.num) + ": "
      + (if e.outOfRange then "value out of range" else "invalid syntax")
  }

  datatype Conversion<+T> = Converted(value: T) | Failed(error: NumError)

  // ---------------------------------------------------------- ParseUint

  /** The length of the longest prefix of s made of digits of the base. */
  function DigitRun(s: string, base: nat): (n: nat)
    ensures n <= |s| && AllBaseDigits(s[..n], base)
    ensures n < |s| ==> !IsBaseDigit(s[n], base)
  {
    if |s| == 0 || !IsBaseDigit(s[0], base) then 0
    else
      var m := DigitRun(s[1..], base);
      assert s[..1 + m] == [s[0]] + s[1..][..m];
      1 + m
  }

  /** The digits of s before its first non-digit. */
  function Lead(s: string, base: nat): (r: string)
    ensures AllBaseDigits(r, base) && r == s[..DigitRun(s, base)]
  {
    s[..DigitRun(s, base)]
  }

  /** How ParseUint's digit loop ends: with the value, at a character that is not a digit, or past the limit. */
  datatype Scanned = Digits(value: nat) | BadDigit | Overflow

  /**
   * ParseUint's digit loop from the value n read so far.  The library's two
   * overflow tests (n >= cutoff before the multiplication, n1 < n || n1 >
   * maxVal after the addition) together say n * base + d > maxVal when
   * maxVal is below 2^64.
   */
  function Scan(s: string, base: nat, maxVal: nat, n: nat): Scanned
    decreases |s|
  {
    if |s| == 0 then Digits(n)
    else if !IsBaseDigit(s[0], base) then BadDigit
    else
      var n1 := n * base + (s[0] as int - '0' as int);
      if n1 > maxVal then Overflow else Scan(s[1..], base, maxVal, n1)
  }

  /** A prefix of a digit string is worth no more than the whole string. */
  lemma {:induction false} BaseValuePrefix(s: string, base: nat, j: nat)
    requires base >= 1 && AllBaseDigits(s, base) && j <= |s|
    ensures BaseValue(s[..j], base) <= BaseValue(s, base)
  {
    if j < |s| {
      var init := s[..|s| - 1];
      assert init[..j] == s[..j];
      BaseValuePrefix(init, base, j);
      assert BaseValue(init, base) <= BaseValue(init, base) * base;
    } else {
      assert s[..j] == s;
    }
  }

  lemma BaseValueSnoc(p: string, c: char, base: nat)
    requires AllBaseDigits(p, base) && IsBaseDigit(c, base)
    ensures AllBaseDigits(p + [c], base)
    ensures BaseValue(p + [c], base) == BaseValue(p, base) * base + (c as int - '0' as int)
  {
    assert (p + [c])[..|p|] == p;
  }

  lemma ConcatDigits(a: string, b: string, base: nat)
    requires AllBaseDigits(a, base) && AllBaseDigits(b, base)
    ensures AllBaseDigits(a + b, base)
  {
    forall i | 0 <= i < |a + b| ensures IsBaseDigit((a + b)[i], base) {
      if i >= |a| {
        assert (a + b)[i] == b[i - |a|];
      }
    }
  }

  /** The loop started after the digits p ends as its declarative reading of p + s says. */
  lemma {:induction false} ScanFrom(p: string, s: string, base: nat, maxVal: nat)
    requires base >= 1 && AllBaseDigits(p, base) && BaseValue(p, base) <= maxVal
    ensures AllBaseDigits(p + Lead(s, base), base)
    ensures Scan(s, base, maxVal, BaseValue(p, base))
         == if BaseValue(p + Lead(s, base), base) > maxVal then Overflow
            else if DigitRun(s, base) < |s| then BadDigit
            else Digits(BaseValue(p + s, base))
    decreases |s|
  {
    ConcatDigits(p, Lead(s, base), base);
    if |s| == 0 || !IsBaseDigit(s[0], base) {
      assert p + Lead(s, base) == p;
      if |s| == 0 {
        assert p + s == p;
      }
    } else {
      var c := s[0];
      var p' := p + [c];
      BaseValueSnoc(p, c, base);
      assert Lead(s, base) == [c] + Lead(s[1..], base);
      assert p + Lead(s, base) == p' + Lead(s[1..], base);
      if BaseValue(p', base) > maxVal {
        ScanOverflowAt(p', Lead(s[1..], base), base);
      } else {
        assert p' + s[1..] == p + s;
        ScanFrom(p', s[1..], base, maxVal);
      }
    }
  }

  /** Digits appended after p only raise its value. */
  lemma ScanOverflowAt(p: string, q: string, base: nat)
    requires base >= 1 && AllBaseDigits(p, base) && AllBaseDigits(q, base)
    ensures AllBaseDigits(p + q, base) && BaseValue(p, base) <= BaseValue(p + q, base)
  {
    ConcatDigits(p, q, base);
    assert (p + q)[..|p|] == p;
    BaseValuePrefix(p + q, base, |p|);
  }

  /**
   * The loop stops at whichever comes first: a range error when the digits
   * before the first non-digit already exceed maxVal, otherwise a syntax
   * error at a non-digit, and the value when every character is a digit.
   */
  lemma ScanOutcome(s: string, base: nat, maxVal: nat)
    requires base >= 1
    ensures Scan(s, base, maxVal, 0)
         == if BaseValue(Lead(s, base), base) > maxVal then Overflow
            else if DigitRun(s, base) < |s| then BadDigit
            else Digits(BaseValue(s, base))
  {
    ScanFrom("", s, base, maxVal);
    assert "" + Lead(s, base) == Lead(s, base);
    assert "" + s == s;
  }

  /** strconv.ParseUint(s, base, bitSize) for the bases 2 to 10: empty input is a syntax error, then the digit loop. */
  function ParseUint(s: string, base: nat, bitSize: nat): (r: Conversion<nat>)
    requires 2 <= base <= 10 && 1 <= bitSize <= 64
    ensures r.Converted? <==> |s| > 0 && AllBaseDigits(s, base) && BaseValue(s, base) < Pow(2, bitSize)
    ensures r.Converted? ==> r.value == BaseValue(s, base)
    ensures r.Failed? ==> r.error == NumError("ParseUint", s, BaseValue(Lead(s, base), base) >= Pow(2, bitSize))
  {
    if |s| == 0 then Failed(NumError("ParseUint", s, false))
    else
      ScanOutcome(s, base, Pow(2, bitSize) - 1);
      assert DigitRun(s, base) == |s| ==> Lead(s, base) == s;
      match Scan(s, base, Pow(2, bitSize) - 1, 0)
      case Digits(n) => Converted(n)
      case BadDigit => Failed(NumError("ParseUint", s, false))
      case Overflow => Failed(NumError("ParseUint", s, true))
  }

  // ---------------------------------------------------------------- Atoi

  lemma {:induction false} PowAdd(b: nat, m: nat, n: nat)
    ensures Pow(b, m + n) == Pow(b, m) * Pow(b, n)
  {
    if m > 0 {
      PowAdd(b, m - 1, n);
      var p, q := Pow(b, m - 1), Pow(b, n);
      calc {
        Pow(b, m + n);
        b * Pow(b, m - 1 + n);
        b * (p * q);
        { MulAssoc(b, p, q); }
        (b * p) * q;
      }
    }
  }

  lemma MulAssoc(a: int, b: int, c: int)
    ensures a * (b * c) == (a * b) * c
  {
  }

  lemma PowValues()
    ensures Pow(2, 32) == 0x1_0000_0000
    ensures Pow(2, 64) == MaxUint64 + 1
    ensures Pow(2, 63) == MaxInt64 + 1
    ensures Pow(10, 18) == 1_000_000_000_000_000_000
  {
    assert Pow(2, 16) == 0x1_0000;
    assert Pow(2, 15) == 0x8000;
    PowAdd(2, 16, 16);
    PowAdd(2, 15, 16);
    PowAdd(2, 31, 32);
    PowAdd(2, 32, 32);
    assert Pow(10, 9) == 1_000_000_000;
    PowAdd(10, 9, 9);
  }

  /** n digits of the base are worth less than base^n. */
  lemma {:induction false} BaseValueBelow(s: string, base: nat)
    requires base >= 1 && AllBaseDigits(s, base)
    ensures BaseValue(s, base) < Pow(base, |s|)
  {
    if |s| > 0 {
      var init := s[..|s| - 1];
      BaseValueBelow(init, base);
      var v, d, p := BaseValue(init, base), s[|s| - 1] as int - '0' as int, Pow(base, |init|);
      assert d < base;
      assert BaseValue(s, base) == v * base + d;
      assert Pow(base, |s|) == base * p;
      NextDigitBelow(v, d, p, base);
    }
  }

  /** A value below p, shifted by one digit, stays below base * p. */
  lemma NextDigitBelow(v: nat, d: nat, p: nat, base: nat)
    requires v < p && d < base
    ensures v * base + d < base * p
  {
    MulMonotone(v + 1, p, base);
    assert (v + 1) * base == v * base + base;
    assert p * base == base * p;
  }

  lemma MulMonotone(a: nat, b: nat, c: nat)
    requires a <= b
    ensures a * c <= b * c
  {
  }

  lemma {:induction false} PowMono(b: nat, m: nat, n: nat)
    requires b >= 1 && m <= n
    ensures Pow(b, m) <= Pow(b, n)
    decreases n
  {
    if m < n {
      PowMono(b, m, n - 1);
      assert Pow(b, n - 1) <= b * Pow(b, n - 1);
    }
  }

  /** At most 18 decimal digits stay below 10^18. */
  lemma ShortDecimal(s: string)
    requires AllDigits(s) && |s| <= 18
    ensures DecimalValue(s) < 1_000_000_000_000_000_000
  {
    BaseValueBelow(s, 10);
    PowMono(10, |s|, 18);
    PowValues();
  }

  /** The digits after an optional leading sign. */
  function Magnitude(s: string): (r: string)
    requires |s| > 0
    ensures |r| <= |s| && r == s[|s| - |r|..]
  {
    if s[0] == '+' || s[0] == '-' then s[1..] else s
  }

  /** A sign (optional) and at least one decimal digit. */
  predicate WellFormed(s: string)
  {
    |s| > 0 && |Magnitude(s)| > 0 && AllDigits(Magnitude(s))
  }

  function SignedValue(s: string): int
    requires WellFormed(s)
  {
    var v: int := DecimalValue(Magnitude(s));
    if s[0] == '-' then -v else v
  }

  /** The digits before the first non-digit already exceed 64 bits. */
  predicate OverflowsFirst(s: string)
  {
    |s| > 0 && DecimalValue(Lead(Magnitude(s), 10)) > MaxUint64
  }

  /** Up to 18 characters never overflow 64 bits, which is why Atoi's fast path needs no range check. */
  lemma ShortNeverOverflows(s: string)
    requires 0 < |s| < 19
    ensures !OverflowsFirst(s)
    ensures WellFormed(s) ==> DecimalValue(Magnitude(s)) < 1_000_000_000_000_000_000
  {
    ShortDecimal(Lead(Magnitude(s), 10));
    if WellFormed(s) {
      ShortDecimal(Magnitude(s));
    }
  }

  /** ParseUint(s, 10, 64) of the digits after the sign, in the terms of Atoi's contract. */
  lemma MagnitudeParse(s: string)
    requires |s| > 0
    ensures var u := ParseUint(Magnitude(s), 10, 64);
      (u.Converted? <==> WellFormed(s) && DecimalValue(Magnitude(s)) <= MaxUint64)
      && (u.Converted? ==> u.value == DecimalValue(Magnitude(s)))
      && (u.Failed? ==> u.error.outOfRange == OverflowsFirst(s) && (WellFormed(s) ==> OverflowsFirst(s)))
  {
    PowValues();
    assert AllDigits(Magnitude(s)) ==> Lead(Magnitude(s), 10) == Magnitude(s);
  }

  /**
   * strconv.ParseInt(s, 10, 0) on a 64-bit platform.  On a range error of
   * ParseUint the unsigned value is the maximum 2^64 - 1, which is past the
   * cutoff 2^63 for either sign, so the result is a range error as well.
   */
  function ParseInt64(s: string): (r: Conversion<int>)
    ensures r.Converted? <==> WellFormed(s) && MinInt64 <= SignedValue(s) <= MaxInt64
    ensures r.Converted? ==> r.value == SignedValue(s)
    ensures r.Failed? ==> r.error == NumError("ParseInt", s, OverflowsFirst(s) || WellFormed(s))
  {
    if |s| == 0 then Failed(NumError("ParseInt", s, false))
    else
      var neg := s[0] == '-';
      var u := ParseUint(Magnitude(s), 10, 64);
      MagnitudeParse(s);
      if u.Failed? && !u.error.outOfRange then Failed(NumError("ParseInt", s, false))
      else
        var un: nat := if u.Failed? then MaxUint64 else u.value;
        var cutoff := MaxInt64 + 1;
        if !neg && un >= cutoff then Failed(NumError("ParseInt", s, true))
        else if neg && un > cutoff then Failed(NumError("ParseInt", s, true))
        else
          var v: int := if neg then -(un as int) else un;
          Converted(v)
  }

  /**
   * strconv.Atoi on a 64-bit platform.  Input of 1 to 18 characters takes the
   * fast path: an optional sign, then digits only, with no range check.  Any
   * other input goes through ParseInt, whose error is renamed to Atoi.
   * Either way: a range error when the digits before the first non-digit
   * already pass 64 bits or a well-formed value is outside int64, a syntax
   * error otherwise, and the value when there is no error.
   */
  function Atoi(s: string): (r: Result<int>)
    ensures r.Ok? <==> WellFormed(s) && MinInt64 <= SignedValue(s) <= MaxInt64
    ensures r.Ok? ==> r.value == SignedValue(s)
    ensures r.Err? ==> r.error == ErrorText(NumError("Atoi", s, OverflowsFirst(s) || WellFormed(s)))
  {
    if 0 < |s| < 19 then
      ShortNeverOverflows(s);
      var digits := Magnitude(s);
      if |digits| == 0 || !AllDigits(digits) then Err(ErrorText(NumError("Atoi", s, false)))
      else
        var v: int := if s[0] == '-' then -(DecimalValue(digits) as int) else DecimalValue(digits);
        Ok(v)
    else
      match ParseInt64(s)
      case Converted(v) => Ok(v)
      case Failed(e) => Err(ErrorText(e.(fn := "Atoi")))
  }

  /** Atoi inverts Itoa on the non-negative 64-bit range. */
  lemma AtoiItoa(n: nat)
    requires n <= MaxInt64
    ensures Atoi(Itoa(n)) == Ok(n)
  {
    DecimalValueItoa(n);
    assert IsDigit(Itoa(n)[0]);
  }

  /**
   * A non-digit after the sign is a syntax error unless the digits before it
   * already pass 64 bits, which needs at least 20 of them.
   */
  lemma AtoiRejectsNonDigit(s: string, i: int)
    requires 0 < i < |s| && !IsDigit(s[i])
    requires |s| < 19 || !OverflowsFirst(s)
    ensures Atoi(s) == Err(ErrorText(NumError("Atoi", s, false)))
  {
    if |s| < 19 {
      ShortNeverOverflows(s);
    }
    var m := Magnitude(s);
    assert m[i - (|s| - |m|)] == s[i];
  }

  /** Digits that pass 64 bits before any non-digit make a range error, whatever follows. */
  lemma AtoiOverflowBeforeSyntax(s: string, k: nat)
    requires |s| > 0 && k <= |Magnitude(s)| && AllDigits(Magnitude(s)[..k])
    requires DecimalValue(Magnitude(s)[..k]) > MaxUint64
    ensures Atoi(s) == Err(ErrorText(NumError("Atoi", s, true)))
  {
    var m := Magnitude(s);
    var run := DigitRun(m, 10);
    assert Lead(m, 10)[..k] == m[..k];
    BaseValuePrefix(Lead(m, 10), 10, k);
    assert OverflowsFirst(s);
    if WellFormed(s) {
      assert Lead(m, 10) == m;
    }
  }
}
