/** Text helpers standing in for Python's `str(int)`, `int(str)` and `sep.join(xs)`. */
module Text {
  import opened Common

  predicate IsDigit(c: char) {
    '0' <= c <= '9'
  }

  function DigitChar(d: nat): (c: char)
    requires d < 10
    ensures IsDigit(c) && (c as int) - ('0' as int) == d
  {
    ['0', '1', '2', '3', '4', '5', '6', '7', '8', '9'][d]
  }

  function DigitValue(c: char): nat
    requires IsDigit(c)
  {
    (c as int) - ('0' as int)
  }

  /** Decimal digits of `n`, most significant first, without leading zeros. */
  function NatToString(n: nat): (s: string)
    ensures |s| > 0
    ensures forall i :: 0 <= i < |s| ==> IsDigit(s[i])
  {
    if n < 10 then [DigitChar(n)] else NatToString(n / 10) + [DigitChar(n % 10)]
  }

  /** `str(i)` for a Python int: a leading '-' for negative values. */
  function IntToString(i: int): (s: string)
    ensures |s| > 0
  {
    if i < 0 then "-" + NatToString(-i) else NatToString(i)
  }

  /** `int(s)` on a text of decimal digits, or None when `s` is not one. */
  function ParseNat(s: string): (r: Option<nat>)
    ensures r.Some? ==> |s| > 0
  {
    if |s| == 0 || !IsDigit(s[|s| - 1]) then None
    else if |s| == 1 then Some(DigitValue(s[0]))
    else match ParseNat(s[..|s| - 1])
      case None => None
      case Some(high) => Some(high * 10 + DigitValue(s[|s| - 1]))
  }

  /** `int(s)` on an optionally signed decimal text. */
  function ParseInt(s: string): Option<int> {
    if |s| > 0 && s[0] == '-' then
      match ParseNat(s[1..])
      case None => None
      case Some(n) => Some(0 - n)
    else
      match ParseNat(s)
      case None => None
      case Some(n) => Some(n)
  }

  /** The ASCII characters Python's `str.isspace()` accepts: space, \t, \n,
      \v, \f, \r and the four separators 0x1C..0x1F. */
  predicate IsSpace(c: char) {
    c == ' ' || '\t' <= c <= '\r' || '\U{1C}' <= c <= '\U{1F}'
  }

  /** `s` without its leading whitespace. */
  function TrimStart(s: string): (r: string)
    ensures |r| <= |s|
    ensures |r| > 0 ==> !IsSpace(r[0])
  {
    if |s| > 0 && IsSpace(s[0]) then TrimStart(s[1..]) else s
  }

  /** `s` without its trailing whitespace. */
  function TrimEnd(s: string): (r: string)
    ensures |r| <= |s|
    ensures |r| > 0 ==> !IsSpace(r[|r| - 1])
  {
    if |s| > 0 && IsSpace(s[|s| - 1]) then TrimEnd(s[..|s| - 1]) else s
  }

  /** Decimal digits, where an underscore may stand alone between two digits. */
  predicate GroupedDigits(s: string) {
    && |s| > 0 && IsDigit(s[0]) && IsDigit(s[|s| - 1])
    && forall i :: 0 <= i < |s| ==> IsDigit(s[i]) || (s[i] == '_' && i + 1 < |s| && IsDigit(s[i + 1]))
  }

  function WithoutUnderscores(s: string): string {
    if |s| == 0 then [] else (if s[0] == '_' then [] else [s[0]]) + WithoutUnderscores(s[1..])
  }

  /** The value of an unsigned `int()` body. */
  function GroupedValue(body: string): Option<nat> {
    if GroupedDigits(body) then ParseNat(WithoutUnderscores(body)) else None
  }

  /** Python's `int(s)` in base 10: surrounding whitespace is ignored, one
      '+' or '-' may lead, and an underscore may separate two digits; any
      other text raises ValueError (None here). */
  function PyInt(s: string): Option<int> {
    var t := TrimEnd(TrimStart(s));
    if |t| > 0 && (t[0] == '-' || t[0] == '+') then
      match GroupedValue(t[1..])
      case None => None
      case Some(n) => Some(if t[0] == '-' then 0 - n else n)
    else
      match GroupedValue(t)
      case None => None
      case Some(n) => Some(n)
  }

  /** A text `ParseNat` reads is made of digits only. */
  lemma {:induction false} ParseNatDigits(s: string)
    requires ParseNat(s).Some?
    ensures |s| > 0 && forall i :: 0 <= i < |s| ==> IsDigit(s[i])
  {
    if |s| > 1 {
      ParseNatDigits(s[..|s| - 1]);
      assert forall i :: 0 <= i < |s| - 1 ==> s[..|s| - 1][i] == s[i];
    }
  }

  lemma {:induction false} WithoutUnderscoresOfDigits(s: string)
    requires forall i :: 0 <= i < |s| ==> IsDigit(s[i])
    ensures WithoutUnderscores(s) == s
  {
    if |s| > 0 {
      WithoutUnderscoresOfDigits(s[1..]);
    }
  }

  /** A text of plain digits is its own `int()` body. */
  lemma GroupedValueOfDigits(body: string)
    requires ParseNat(body).Some?
    ensures GroupedValue(body) == ParseNat(body)
  {
    ParseNatDigits(body);
    WithoutUnderscoresOfDigits(body);
  }

  /** Every text of plain digits, signed or not, reads as `int()` reads it. */
  lemma PyIntOfParseInt(s: string)
    requires ParseInt(s).Some?
    ensures PyInt(s) == ParseInt(s)
  {
    if s[0] == '-' {
      GroupedValueOfDigits(s[1..]);
      ParseNatDigits(s[1..]);
      assert s[|s| - 1] == s[1..][|s| - 2];
    } else {
      GroupedValueOfDigits(s);
      ParseNatDigits(s);
    }
    assert !IsSpace(s[0]) && !IsSpace(s[|s| - 1]);
    assert TrimStart(s) == s;
    assert TrimEnd(s) == s;
  }

  /** Unlike the plain form, `int()` takes a leading '+' and surrounding whitespace. */
  lemma PyIntSignAndSpace()
    ensures PyInt("+3") == Some(3) && ParseInt("+3") == None
    ensures PyInt(" 7\n") == Some(7) && ParseInt(" 7\n") == None
  {
    assert TrimStart("+3") == "+3" && TrimEnd("+3") == "+3" && "+3"[1..] == "3";
    GroupedValueOfDigits("3");
    assert "+3"[..1] == "+" && ParseNat("+") == None;
    assert TrimStart(" 7\n") == "7\n" && TrimEnd("7\n") == "7";
    GroupedValueOfDigits("7");
    assert " 7\n"[..2] == " 7";
  }

  /** An underscore may stand between two digits. */
  lemma PyIntUnderscores()
    ensures PyInt("1_0") == Some(10) && PyInt("-0_5") == Some(-5)
  {
    assert TrimStart("1_0") == "1_0" && TrimEnd("1_0") == "1_0";
    assert GroupedDigits("1_0");
    assert WithoutUnderscores("1_0") == "10";
    assert TrimStart("-0_5") == "-0_5" && TrimEnd("-0_5") == "-0_5" && "-0_5"[1..] == "0_5";
    assert GroupedDigits("0_5");
    assert WithoutUnderscores("0_5") == "05";
  }

  /** A doubled, leading or trailing underscore, a lone sign, two signs and
      the empty text are refused. */
  lemma PyIntRefused()
    ensures PyInt("1__0") == None && PyInt("_1") == None && PyInt("1_") == None
    ensures PyInt("+") == None && PyInt("+-1") == None && PyInt("") == None
  {
    assert TrimStart("1__0") == "1__0" && TrimEnd("1__0") == "1__0";
    assert !GroupedDigits("1__0") by { assert "1__0"[1] == '_' && !IsDigit("1__0"[2]); }
    assert TrimStart("_1") == "_1" && TrimEnd("_1") == "_1";
    assert TrimStart("1_") == "1_" && TrimEnd("1_") == "1_";
    assert TrimStart("+") == "+" && TrimEnd("+") == "+" && "+"[1..] == "";
    assert TrimStart("+-1") == "+-1" && TrimEnd("+-1") == "+-1" && "+-1"[1..] == "-1";
  }

  lemma {:induction false} ParseNatOfNatToString(n: nat)
    ensures ParseNat(NatToString(n)) == Some(n)
  {
    if n >= 10 {
      var s := NatToString(n);
      ParseNatOfNatToString(n / 10);
      assert s[..|s| - 1] == NatToString(n / 10);
      assert s[|s| - 1] == DigitChar(n % 10);
    }
  }

  /** Reading back the decimal text of any int gives that int. */
  lemma {:induction false} ParseIntOfIntToString(i: int)
    ensures ParseInt(IntToString(i)) == Some(i)
  {
    var s := IntToString(i);
    if i < 0 {
      assert s == "-" + NatToString(-i);
      assert s[0] == '-' && s[1..] == NatToString(-i);
      ParseNatOfNatToString(-i);
    } else {
      assert s == NatToString(i);
      assert IsDigit(s[0]);
      ParseNatOfNatToString(i);
    }
  }

  /** Distinct ints have distinct decimal texts. */
  lemma IntToStringInjective(i: int, j: int)
    requires IntToString(i) == IntToString(j)
    ensures i == j
  {
    ParseIntOfIntToString(i);
    ParseIntOfIntToString(j);
  }

  /** `sep.join(xs)`. */
  function Join(sep: string, xs: seq<string>): (r: string)
    ensures |xs| == 1 ==> r == xs[0]
    ensures xs == [] ==> r == ""
  {
    if |xs| == 0 then "" else if |xs| == 1 then xs[0] else xs[0] + sep + Join(sep, xs[1..])
  }
}
