/**
  The textual encodings the service relies on. Every value in the attribute
  table is text: integers are written with Python's `str(int)` and read back
  with `int(...)`, prices are read with `float(...)`, and SQL compares and
  aggregates the text with SQLite's BINARY collation and its CAST rules.
*/
module Text {
  import opened Wrappers

  // ---------------------------------------------------------------------
  // SQLite's BINARY collation: code point by code point, a proper prefix
  // sorting first. (Dafny's own `<` on sequences means "proper prefix".)
  // ---------------------------------------------------------------------

  /** `a` sorts at or before `b` under SQLite's BINARY collation. */
  predicate LexLe(a: string, b: string)
    decreases |a|
  {
    |a| == 0 || (|b| > 0 && (a[0] < b[0] || (a[0] == b[0] && LexLe(a[1..], b[1..]))))
  }

  lemma {:induction false} LexLeRefl(a: string)
    ensures LexLe(a, a)
    decreases |a|
  {
    if |a| > 0 {
      LexLeRefl(a[1..]);
    }
  }

  lemma {:induction false} LexLeTotal(a: string, b: string)
    ensures LexLe(a, b) || LexLe(b, a)
    decreases |a|
  {
    if |a| > 0 && |b| > 0 && a[0] == b[0] {
      LexLeTotal(a[1..], b[1..]);
    }
  }

  lemma {:induction false} LexLeAntisymmetric(a: string, b: string)
    requires LexLe(a, b) && LexLe(b, a)
    ensures a == b
    decreases |a|
  {
    if |a| > 0 && |b| > 0 {
      LexLeAntisymmetric(a[1..], b[1..]);
      assert a == [a[0]] + a[1..] && b == [b[0]] + b[1..];
    }
  }

  lemma {:induction false} LexLeTransitive(a: string, b: string, c: string)
    requires LexLe(a, b) && LexLe(b, c)
    ensures LexLe(a, c)
    decreases |a|
  {
    if |a| > 0 && |b| > 0 && |c| > 0 && a[0] == b[0] && b[0] == c[0] {
      LexLeTransitive(a[1..], b[1..], c[1..]);
    }
  }

  /** A proper prefix sorts first, as in Dafny's own prefix order. */
  lemma {:induction false} PrefixLexLe(a: string, b: string)
    requires a <= b
    ensures LexLe(a, b)
    decreases |a|
  {
    if |a| > 0 {
      assert a[1..] <= b[1..];
      PrefixLexLe(a[1..], b[1..]);
    }
  }

  // ---------------------------------------------------------------------
  // Decimal digits
  // ---------------------------------------------------------------------

  predicate IsDigit(c: char) {
    '0' <= c <= '9'
  }

  predicate AllDigits(s: string) {
    forall i :: 0 <= i < |s| ==> IsDigit(s[i])
  }

  function DigitChar(d: nat): (c: char)
    requires d < 10
    ensures IsDigit(c)
  {
    (48 + d) as char
  }

  function DigitValue(c: char): (d: nat)
    requires IsDigit(c)
    ensures d < 10
  {
    c as int - 48
  }

  /** The number a string of decimal digits denotes (leading zeros allowed). */
  function DigitsValue(s: string): nat
    requires AllDigits(s)
  {
    if |s| == 0 then 0 else 10 * DigitsValue(s[..|s| - 1]) + DigitValue(s[|s| - 1])
  }

  function Pow10(n: nat): (p: nat)
    ensures p >= 1
  {
    if n == 0 then 1 else 10 * Pow10(n - 1)
  }

  /** The longest prefix of `s` made of digits. */
  function DigitPrefix(s: string): (p: string)
    ensures AllDigits(p) && p <= s
    ensures |p| < |s| ==> !IsDigit(s[|p|])
  {
    if |s| > 0 && IsDigit(s[0]) then [s[0]] + DigitPrefix(s[1..]) else ""
  }

  lemma {:induction false} DigitPrefixOfDigits(s: string)
    requires AllDigits(s)
    ensures DigitPrefix(s) == s
  {
    if |s| > 0 {
      DigitPrefixOfDigits(s[1..]);
      assert s == [s[0]] + s[1..];
    }
  }

  // ---------------------------------------------------------------------
  // Python's str(int) and int(str)
  // ---------------------------------------------------------------------

  function NatToStr(n: nat): (s: string)
    ensures |s| > 0 && AllDigits(s)
  {
    (if n < 10 then "" else NatToStr(n / 10)) + [DigitChar(n % 10)]
  }

  /** Python's `str(n)` for an integer: decimal digits, a leading '-' when negative. */
  function IntToStr(n: int): (s: string)
    ensures |s| > 0
  {
    if n < 0 then "-" + NatToStr(-n) else NatToStr(n)
  }

  /**
    Python's `int(s)`: an optional sign followed by at least one digit;
    anything else raises ValueError, modelled as None.
  */
  function StrToInt(s: string): (r: Option<int>)
    ensures r.Some? ==> |s| > 0
  {
    if |s| > 0 && (s[0] == '-' || s[0] == '+') then
      if |s| > 1 && AllDigits(s[1..]) then
        Some(if s[0] == '-' then -(DigitsValue(s[1..]) as int) else DigitsValue(s[1..]) as int)
      else None
    else if |s| > 0 && AllDigits(s) then Some(DigitsValue(s))
    else None
  }

  lemma {:induction false} NatToStrValue(n: nat)
    ensures DigitsValue(NatToStr(n)) == n
    decreases n
  {
    var q, r := n / 10, n % 10;
    var high := if n < 10 then "" else NatToStr(q);
    assert NatToStr(n) == high + [DigitChar(r)];
    DigitsSnoc(high, r);
    if n >= 10 {
      NatToStrValue(q);
    }
  }

  /** Appending a digit multiplies the value by ten and adds the digit. */
  lemma DigitsSnoc(high: string, d: nat)
    requires AllDigits(high) && d < 10
    ensures AllDigits(high + [DigitChar(d)])
    ensures DigitsValue(high + [DigitChar(d)]) == 10 * DigitsValue(high) + d
  {
    var s := high + [DigitChar(d)];
    assert s[..|s| - 1] == high;
  }

  /** `int()` of a run of digits is its value. */
  lemma StrToIntOfDigits(d: string)
    requires |d| > 0 && AllDigits(d)
    ensures StrToInt(d) == Some(DigitsValue(d) as int)
  {
    assert IsDigit(d[0]);
  }

  /** `int()` of a minus sign and a run of digits is the negated value. */
  lemma StrToIntOfNegative(d: string)
    requires |d| > 0 && AllDigits(d)
    ensures StrToInt("-" + d) == Some(-(DigitsValue(d) as int))
  {
    var s := "-" + d;
    assert s[0] == '-' && s[1..] == d;
  }

  /** Reading back what `str(n)` wrote gives `n`. */
  lemma IntToStrRoundTrip(n: int)
    ensures StrToInt(IntToStr(n)) == Some(n)
  {
    if n < 0 {
      NatToStrValue(-n);
      StrToIntOfNegative(NatToStr(-n));
    } else {
      NatToStrValue(n);
      StrToIntOfDigits(NatToStr(n));
    }
  }

  /** Distinct integers are written as distinct texts. */
  lemma IntToStrInjective(a: int, b: int)
    requires IntToStr(a) == IntToStr(b)
    ensures a == b
  {
    IntToStrRoundTrip(a);
    IntToStrRoundTrip(b);
  }

  // ---------------------------------------------------------------------
  // Decimal numbers: Python's float(str) and SQLite's CAST
  // ---------------------------------------------------------------------

  /** The sign, integral digits, fraction digits and unread remainder of a decimal prefix. */
  datatype Scan = Scan(negative: bool, whole: string, dot: bool, frac: string, rest: string)

  /** Reads `[+-]? digits* ('.' digits*)?` from the front of `s`. */
  function ScanDecimal(s: string): (r: Scan)
    ensures AllDigits(r.whole) && AllDigits(r.frac)
  {
    var signed := |s| > 0 && (s[0] == '-' || s[0] == '+');
    var body := if signed then s[1..] else s;
    var whole := DigitPrefix(body);
    var after := body[|whole|..];
    if |after| > 0 && after[0] == '.' then
      var frac := DigitPrefix(after[1..]);
      Scan(signed && s[0] == '-', whole, true, frac, after[1..][|frac|..])
    else
      Scan(signed && s[0] == '-', whole, false, "", after)
  }

  function ScanValue(sc: Scan): real
    requires AllDigits(sc.whole) && AllDigits(sc.frac)
  {
    var v := DigitsValue(sc.whole) as real + DigitsValue(sc.frac) as real / Pow10(|sc.frac|) as real;
    if sc.negative then -v else v
  }

  /**
    Python's `float(s)` on the price texts the service handles: the whole text
    must be a decimal with at least one digit; otherwise ValueError (None).
  */
  function ParseDecimal(s: string): (r: Option<real>)
    ensures r.Some? ==> |s| > 0
  {
    var sc := ScanDecimal(s);
    if sc.rest == "" && |sc.whole| + |sc.frac| > 0 then Some(ScanValue(sc)) else None
  }

  /** The characters SQLite's number conversions skip: space, tab, newline, vertical tab, form feed, carriage return. */
  predicate IsSqlSpace(c: char) {
    c == ' ' || '\t' <= c <= '\r'
  }

  /** `s` without its leading SQLite white space. */
  function SkipSpace(s: string): (t: string)
    ensures |t| <= |s|
    ensures |t| > 0 ==> !IsSqlSpace(t[0])
  {
    if |s| > 0 && IsSqlSpace(s[0]) then SkipSpace(s[1..]) else s
  }

  /**
    The exponent a real literal may end with, read from the text after its
    digits: `e` or `E`, an optional sign and at least one digit; 0 when the
    text does not start that way (SQLite then leaves the `e` unread).
  */
  function ExponentOf(rest: string): int {
    if |rest| >= 2 && (rest[0] == 'e' || rest[0] == 'E') then
      var signed := rest[1] == '+' || rest[1] == '-';
      var ds := DigitPrefix(if signed then rest[2..] else rest[1..]);
      if ds == "" then 0
      else if signed && rest[1] == '-' then -(DigitsValue(ds) as int)
      else DigitsValue(ds) as int
    else 0
  }

  /** `v` times ten to the power `e`. */
  function Scale(v: real, e: int): real {
    if e >= 0 then v * Pow10(e) as real else v / Pow10(-e) as real
  }

  /**
    SQLite's CAST(s AS INTEGER): leading white space is skipped, then the
    longest integer prefix is read; 0 when there is none.
  */
  function SqlCastInt(s: string): int {
    var sc := ScanDecimal(SkipSpace(s));
    if sc.negative then -(DigitsValue(sc.whole) as int) else DigitsValue(sc.whole) as int
  }

  /**
    SQLite's CAST(s AS REAL): leading white space is skipped, then the
    longest real prefix (sign, digits, fraction, exponent) is read; 0 when
    there is none.
  */
  function SqlCastReal(s: string): real {
    var sc := ScanDecimal(SkipSpace(s));
    Scale(ScanValue(sc), ExponentOf(sc.rest))
  }

  /** What follows the exponent `ExponentOf` reads, or all of `rest` when it reads none. */
  function AfterExponent(rest: string): (t: string)
    ensures |t| <= |rest|
  {
    if |rest| >= 2 && (rest[0] == 'e' || rest[0] == 'E') then
      var signed := rest[1] == '+' || rest[1] == '-';
      var body := if signed then rest[2..] else rest[1..];
      var ds := DigitPrefix(body);
      if ds == "" then rest else body[|ds|..]
    else rest
  }

  predicate AllSqlSpace(s: string) {
    forall i :: 0 <= i < |s| ==> IsSqlSpace(s[i])
  }

  /**
    SQLite's NUMERIC affinity, applied to a text bound against an INTEGER
    column (`ent_instance_id = ?`): a text that is, apart from surrounding
    white space, one decimal literal (sign, digits, fraction, exponent, at
    least one digit) whose value is whole compares equal to that integer, so
    '3', '3.0', '3e0' and ' 3 ' all match instance 3. Any other text stays a
    text and equals no integer.
  */
  function NumericInt(s: string): (r: Option<int>)
    ensures r.Some? ==> r.value as real == SqlCastReal(s)
  {
    var sc := ScanDecimal(SkipSpace(s));
    var v := Scale(ScanValue(sc), ExponentOf(sc.rest));
    if |sc.whole| + |sc.frac| > 0 && AllSqlSpace(AfterExponent(sc.rest)) && v.Floor as real == v then
      Some(v.Floor)
    else None
  }

  /** Leading white space does not change either cast. */
  lemma SqlCastSkipsSpace(c: char, s: string)
    requires IsSqlSpace(c)
    ensures SqlCastInt([c] + s) == SqlCastInt(s)
    ensures SqlCastReal([c] + s) == SqlCastReal(s)
  {
    assert ([c] + s)[1..] == s;
  }

  /** A real literal with an exponent casts to its scaled value: CAST('1e2' AS REAL) is 100, AS INTEGER 1. */
  lemma SqlCastRealExponent()
    ensures SqlCastReal("1e2") == 100.0
    ensures SqlCastInt("1e2") == 1
  {
    ScanOfOneE2();
    assert ExponentOf("e2") == 2 by {
      DigitPrefixOfDigits("2");
      assert DigitsValue("2") == 2;
    }
    assert Pow10(2) == 100;
  }

  lemma ScanOfOneE2()
    ensures SkipSpace("1e2") == "1e2"
    ensures ScanDecimal("1e2") == Scan(false, "1", false, "", "e2")
    ensures DigitsValue("1") == 1
  {
    var s := "1e2";
    assert s[1..] == "e2";
    assert DigitPrefix(s) == "1";
    assert s[|"1"|..] == "e2";
  }

  /** A run of digits scans as a whole number with nothing left over. */
  lemma ScanOfDigits(d: string)
    requires |d| > 0 && AllDigits(d)
    ensures ScanDecimal(d) == Scan(false, d, false, "", "")
  {
    DigitPrefixOfDigits(d);
    assert IsDigit(d[0]);
  }

  /** A minus sign and a run of digits scan as a negative whole number with nothing left over. */
  lemma ScanOfNegativeDigits(d: string)
    requires |d| > 0 && AllDigits(d)
    ensures ScanDecimal("-" + d) == Scan(true, d, false, "", "")
  {
    DigitPrefixOfDigits(d);
    assert ("-" + d)[1..] == d;
  }

  lemma ScanOfIntToStr(n: int)
    ensures var sc := ScanDecimal(IntToStr(n));
      sc.negative == (n < 0) && sc.frac == "" && sc.rest == "" && DigitsValue(sc.whole) == (if n < 0 then -n else n)
  {
    var m: nat := if n < 0 then -n else n;
    var d := NatToStr(m);
    NatToStrValue(m);
    if n < 0 {
      assert IntToStr(n) == "-" + d;
      ScanOfNegativeDigits(d);
    } else {
      assert IntToStr(n) == d;
      ScanOfDigits(d);
    }
  }

  /** `float(str(n)) == n`: integer texts are valid prices. */
  lemma ParseDecimalOfInt(n: int)
    ensures ParseDecimal(IntToStr(n)) == Some(n as real)
  {
    ScanOfIntToStr(n);
  }

  /** `str(n)` starts with a digit or a minus sign, so there is no white space to skip. */
  lemma SkipSpaceOfIntToStr(n: int)
    ensures SkipSpace(IntToStr(n)) == IntToStr(n)
  {
    if n >= 0 {
      assert IsDigit(NatToStr(n)[0]);
    }
  }

  /** CAST(str(n) AS INTEGER) == n. */
  lemma SqlCastIntOfInt(n: int)
    ensures SqlCastInt(IntToStr(n)) == n
  {
    SkipSpaceOfIntToStr(n);
    ScanOfIntToStr(n);
  }

  /** CAST(str(n) AS FLOAT) == n. */
  lemma SqlCastRealOfInt(n: int)
    ensures SqlCastReal(IntToStr(n)) == n as real
  {
    SkipSpaceOfIntToStr(n);
    ScanOfIntToStr(n);
    WholeScanValue(ScanDecimal(IntToStr(n)));
  }

  /** A scan with no fraction digits and nothing after them casts to its signed whole part. */
  lemma WholeScanValue(sc: Scan)
    requires AllDigits(sc.whole) && sc.frac == "" && sc.rest == ""
    ensures Scale(ScanValue(sc), ExponentOf(sc.rest)) == (if sc.negative then -(DigitsValue(sc.whole) as real) else DigitsValue(sc.whole) as real)
  {
    assert DigitsValue(sc.frac) == 0 && Pow10(|sc.frac|) == 1 && ExponentOf(sc.rest) == 0;
  }
  /** A plus sign and a run of digits scan as a whole number with nothing left over. */
  lemma ScanOfPlusDigits(d: string)
    requires |d| > 0 && AllDigits(d)
    ensures ScanDecimal("+" + d) == Scan(false, d, false, "", "")
  {
    DigitPrefixOfDigits(d);
    assert ("+" + d)[1..] == d;
  }

  /** A scan of whole digits and nothing more is a literal the NUMERIC affinity turns into its value. */
  lemma NumericIntOfWholeScan(s: string, sc: Scan)
    requires SkipSpace(s) == s && sc == ScanDecimal(s) && |sc.whole| > 0 && sc.frac == "" && sc.rest == ""
    ensures NumericInt(s) == Some(if sc.negative then -(DigitsValue(sc.whole) as int) else DigitsValue(sc.whole) as int)
  {
    var k := if sc.negative then -(DigitsValue(sc.whole) as int) else DigitsValue(sc.whole) as int;
    var v := Scale(ScanValue(sc), ExponentOf(sc.rest));
    assert v == k as real by {
      WholeScanValue(sc);
    }
    assert v.Floor == k;
    assert AllSqlSpace(AfterExponent(sc.rest));
  }

  /** Every text `int()` accepts is matched by the INTEGER column to the same number. */
  lemma NumericIntOfStrToInt(s: string)
    requires StrToInt(s).Some?
    ensures NumericInt(s) == StrToInt(s)
  {
    if s[0] == '-' || s[0] == '+' {
      var d := s[1..];
      assert s == [s[0]] + d;
      if s[0] == '-' {
        assert s == "-" + d;
        ScanOfNegativeDigits(d);
      } else {
        assert s == "+" + d;
        ScanOfPlusDigits(d);
      }
      NumericIntOfWholeScan(s, ScanDecimal(s));
    } else {
      assert IsDigit(s[0]);
      ScanOfDigits(s);
      NumericIntOfWholeScan(s, ScanDecimal(s));
    }
  }

  /** The instance id `str(n)` is matched to `n`. */
  lemma NumericIntOfInt(n: int)
    ensures NumericInt(IntToStr(n)) == Some(n)
  {
    IntToStrRoundTrip(n);
    NumericIntOfStrToInt(IntToStr(n));
  }
  lemma ScanOfThreePoint(f: char)
    requires IsDigit(f)
    ensures SkipSpace("3." + [f]) == "3." + [f]
    ensures ScanDecimal("3." + [f]) == Scan(false, "3", true, [f], "")
  {
    var s := "3." + [f];
    assert DigitPrefix(s[1..]) == "";
    assert DigitPrefix(s) == "3";
    assert s[|"3"|..] == "." + [f];
    assert DigitPrefix([f]) == [f];
    assert ("." + [f])[1..] == [f];
  }

  /** '3.' and one digit `f` denote 3 + f/10, which is whole only for '0'. */
  lemma NumericIntThreePoint(f: char)
    requires IsDigit(f)
    ensures NumericInt("3." + [f]) == if f == '0' then Some(3) else None
  {
    ScanOfThreePoint(f);
    var sc := Scan(false, "3", true, [f], "");
    assert DigitsValue("3") == 3 && DigitsValue([f]) == DigitValue(f) && Pow10(1) == 10;
    var v := 3.0 + DigitValue(f) as real / 10.0;
    assert ScanValue(sc) == v;
    assert ExponentOf("") == 0 && AfterExponent("") == "";
    assert Scale(v, 0) == v;
    assert v.Floor == 3;
  }

  /** The INTEGER column matches texts `int()` rejects: '3.0' compares equal to 3. */
  lemma NumericIntBeyondStrToInt()
    ensures StrToInt("3.0").None? && NumericInt("3.0") == Some(3)
  {
    assert StrToInt("3.0").None? by {
      assert !IsDigit("3.0"[1]);
    }
    assert "3.0" == "3." + ['0'];
    NumericIntThreePoint('0');
  }
}
