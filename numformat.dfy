// `format_float`: a number rounded to hundredths and printed with no, one or
// two decimals, whichever is the shortest exact rendering.
module NumberFormat {
  import opened Text
  import opened Values

  /** Rounding to the nearest integer, ties to even (Python's `round`). */
  function RoundHalfEven(y: real): (r: int)
    ensures y - 0.5 <= r as real <= y + 0.5
  {
    var fl := y.Floor;
    var frac := y - fl as real;
    if frac < 0.5 then fl
    else if frac > 0.5 then fl + 1
    else if fl % 2 == 0 then fl else fl + 1
  }

  /** The decimals printed after the point for |h| hundredths: none when the
      value is integral, one when it is a multiple of a tenth, else two. */
  function Decimals(a: nat): string {
    if a % 100 == 0 then ""
    else if a % 10 == 0 then [DigitChar(a / 10 % 10)]
    else [DigitChar(a / 10 % 10), DigitChar(a % 10)]
  }

  /** Printing h hundredths as format_float prints round(f, 2) == h / 100. */
  function FormatHundredths(h: int): string {
    var a: nat := if h < 0 then -h else h;
    var sign := if h < 0 then "-" else "";
    if a % 100 == 0 then IntToString(h / 100)
    else sign + NatToString(a / 100) + "." + Decimals(a)
  }

  /** `format_float` of a number: rounded to hundredths, then printed. */
  function FormatReal(y: real): string {
    FormatHundredths(RoundHalfEven(y * 100.0))
  }

  /** `format_float(val)`: str(val) where float() raises, else the hundredths rule. */
  function FormatFloat(num: NumberSyntax, v: Value): string {
    match FloatOf(num, v)
    case None => Str(v)
    case Some(x) => FormatReal(x)
  }

  // ---------------------------------------------------------------------
  // Reading the printed number back

  predicate IsDigits(s: string) {
    s != [] && forall i :: 0 <= i < |s| ==> '0' <= s[i] <= '9'
  }

  /** The hundredths denoted by "D+" or "D+.D" or "D+.DD" (no sign). */
  function ReadUnsigned(s: string): Option<nat> {
    var parts := Split(s, '.');
    if |parts| == 1 then
      if IsDigits(parts[0]) then Some(100 * DigitsValue(parts[0])) else None
    else if |parts| == 2 && IsDigits(parts[0]) && IsDigits(parts[1]) && |parts[1]| <= 2 then
      var f := parts[1];
      var frac := if |f| == 1 then 10 * DigitsValue(f) else DigitsValue(f);
      Some(100 * DigitsValue(parts[0]) + frac)
    else None
  }

  /** The hundredths denoted by a decimal text with an optional leading '-'. */
  function ReadHundredths(s: string): Option<int> {
    if s != [] && s[0] == '-' then
      match ReadUnsigned(s[1..])
      case Some(n) => Some(0 - n)
      case None => None
    else
      match ReadUnsigned(s)
      case Some(n) => Some(n)
      case None => None
  }

  /** The printed fraction never ends in a zero, and an integral value has none. */
  predicate Trimmed(s: string) {
    forall i :: 0 <= i < |s| && s[i] == '.' ==> i < |s| - 1 && s[|s| - 1] != '0'
  }

  lemma {:induction false} DigitsOfDigitChar(d: nat)
    requires d < 10
    ensures IsDigits([DigitChar(d)]) && DigitsValue([DigitChar(d)]) == d
  {
    assert [DigitChar(d)][..0] == [];
  }

  lemma {:induction false} TwoDigitsValue(d1: nat, d2: nat)
    requires d1 < 10 && d2 < 10
    ensures IsDigits([DigitChar(d1), DigitChar(d2)])
    ensures DigitsValue([DigitChar(d1), DigitChar(d2)]) == 10 * d1 + d2
  {
    var s := [DigitChar(d1), DigitChar(d2)];
    assert s[..1] == [DigitChar(d1)];
    DigitsOfDigitChar(d1);
  }

  lemma {:induction false} NatToStringDigits(n: nat)
    ensures IsDigits(NatToString(n)) && '.' !in NatToString(n) && '-' !in NatToString(n)
    ensures DigitsValue(NatToString(n)) == n
  {
    NatToStringValue(n);
    var s := NatToString(n);
    forall i | 0 <= i < |s| ensures s[i] != '.' && s[i] != '-' {
    }
  }

  /** The last two decimal digits of a. */
  lemma {:induction false} LastTwoDigits(a: nat)
    ensures a % 100 == 10 * (a / 10 % 10) + a % 10
    ensures a == 100 * (a / 100) + a % 100
  {
  }

  /** The printed decimals are one or two digits worth the remainder in hundredths. */
  lemma {:induction false} DecimalsValue(a: nat)
    requires a % 100 != 0
    ensures var dec := Decimals(a);
      && IsDigits(dec) && 1 <= |dec| <= 2 && '.' !in dec
      && (if |dec| == 1 then 10 * DigitsValue(dec) else DigitsValue(dec)) == a % 100
  {
    LastTwoDigits(a);
    if a % 10 == 0 {
      DigitsOfDigitChar(a / 10 % 10);
    } else {
      TwoDigitsValue(a / 10 % 10, a % 10);
    }
  }

  lemma {:induction false} ReadIntegral(n: nat)
    ensures ReadUnsigned(NatToString(n)) == Some(100 * n)
  {
    NatToStringDigits(n);
    SplitNoSep(NatToString(n), '.');
  }

  lemma {:induction false} ReadFractional(a: nat)
    requires a % 100 != 0
    ensures ReadUnsigned(NatToString(a / 100) + "." + Decimals(a)) == Some(a)
  {
    var ip := NatToString(a / 100);
    var dec := Decimals(a);
    NatToStringDigits(a / 100);
    DecimalsValue(a);
    LastTwoDigits(a);
    SplitJoin([ip, dec], '.');
    assert Join(".", [ip, dec]) == ip + "." + dec;
  }

  /** The unsigned rendering of |h|. */
  function Unsigned(a: nat): string {
    if a % 100 == 0 then NatToString(a / 100) else NatToString(a / 100) + "." + Decimals(a)
  }

  lemma {:induction false} FormatAsUnsigned(h: int)
    ensures h >= 0 ==> FormatHundredths(h) == Unsigned(h)
    ensures h < 0 ==> FormatHundredths(h) == "-" + Unsigned(-h)
  {
    if h < 0 && (-h) % 100 == 0 {
      var a := -h;
      assert h / 100 == -(a / 100);
    }
  }

  lemma {:induction false} UnsignedHead(a: nat)
    ensures Unsigned(a) != [] && Unsigned(a)[0] != '-'
    ensures ReadUnsigned(Unsigned(a)) == Some(a)
  {
    NatToStringDigits(a / 100);
    if a % 100 == 0 {
      ReadIntegral(a / 100);
    } else {
      ReadFractional(a);
    }
  }

  /** Reading the printed number gives back the hundredths it was printed from. */
  lemma {:induction false} ReadFormatHundredths(h: int)
    ensures ReadHundredths(FormatHundredths(h)) == Some(h)
  {
    FormatAsUnsigned(h);
    if h < 0 {
      ReadNegative(-h);
    } else {
      ReadNonNegative(h);
    }
  }

  lemma {:induction false} ReadNonNegative(a: nat)
    ensures ReadHundredths(Unsigned(a)) == Some(a)
  {
    UnsignedHead(a);
  }

  lemma {:induction false} ReadNegative(a: nat)
    ensures ReadHundredths("-" + Unsigned(a)) == Some(-(a as int))
  {
    UnsignedHead(a);
    assert ("-" + Unsigned(a))[1..] == Unsigned(a);
  }

  /** No trailing zero after the decimal point, and no point for an integral value. */
  lemma {:induction false} UnsignedTrimmed(a: nat)
    ensures Trimmed(Unsigned(a))
  {
    var s := Unsigned(a);
    var ip := NatToString(a / 100);
    NatToStringDigits(a / 100);
    if a % 100 == 0 {
      forall i | 0 <= i < |s| ensures s[i] != '.' {
        assert s[i] in ip;
      }
    } else {
      var dec := Decimals(a);
      LastTwoDigits(a);
      assert s[|s| - 1] != '0';
      assert s[|s| - 1] in dec;
    }
  }

  lemma {:induction false} FormatHundredthsTrimmed(h: int)
    ensures Trimmed(FormatHundredths(h))
  {
    FormatAsUnsigned(h);
    var a: nat := if h < 0 then -h else h;
    UnsignedTrimmed(a);
    if h < 0 {
      var s := FormatHundredths(h);
      var u := Unsigned(a);
      forall i | 0 <= i < |s| && s[i] == '.' ensures i < |s| - 1 && s[|s| - 1] != '0' {
        assert s[i] == u[i - 1];
        assert s[|s| - 1] == u[|u| - 1];
      }
    }
  }

  /** Examples: 2.0 prints "2", 2.50 prints "2.5", 2.567 prints "2.57". */
  lemma {:induction false} Examples()
    ensures FormatHundredths(RoundHalfEven(2.0 * 100.0)) == "2"
    ensures FormatHundredths(RoundHalfEven(2.50 * 100.0)) == "2.5"
    ensures FormatHundredths(RoundHalfEven(2.567 * 100.0)) == "2.57"
  {
    ExampleWhole();
    ExampleOneDecimal();
    ExampleTwoDecimals();
  }

  lemma {:induction false} ExampleWhole()
    ensures FormatHundredths(RoundHalfEven(2.0 * 100.0)) == "2"
  {
  }

  lemma {:induction false} ExampleOneDecimal()
    ensures FormatHundredths(RoundHalfEven(2.50 * 100.0)) == "2.5"
  {
  }

  lemma {:induction false} ExampleTwoDecimals()
    ensures FormatHundredths(RoundHalfEven(2.567 * 100.0)) == "2.57"
  {
    assert RoundHalfEven(256.7) == 257;
  }

  /** What `format_float` prints for a number reads back as that number
      rounded to hundredths, with no trailing zero after the point; a value
      float() rejects is printed as str() gives it. */
  lemma {:induction false} FormatFloatReadsBack(num: NumberSyntax, v: Value)
    ensures FloatOf(num, v).None? ==> FormatFloat(num, v) == Str(v)
    ensures FloatOf(num, v).Some? ==>
      && ReadHundredths(FormatFloat(num, v)) == Some(RoundHalfEven(FloatOf(num, v).value * 100.0))
      && Trimmed(FormatFloat(num, v))
  {
    if FloatOf(num, v).Some? {
      var h := RoundHalfEven(FloatOf(num, v).value * 100.0);
      ReadFormatHundredths(h);
      FormatHundredthsTrimmed(h);
    }
  }
}
