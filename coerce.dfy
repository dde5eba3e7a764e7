/**
  Python's `bool(v)`, `int(v)` and `float(v)` applied to decoded JSON values, the three
  conversions the `cfg/set` handler applies to a metric entry that it builds afresh.
  `bool` is `Json.Truthy` and never fails; `int` and `float` either return a number
  or raise, and the raised exception is what the handler reports.

  String arguments follow the grammar Python documents for `int()` in base 10 and for
  `float()`, restricted to ASCII digits: surrounding whitespace (`IsSpace`), an
  optional sign, digit groups joined by single underscores, and for `float` a fraction,
  an exponent and the words `inf`, `infinity` and `nan` in any letter case.
 */
module Coerce {
  import opened Wrappers
  import opened Json
  import opened PyErrors

  /**
    The whitespace `int()` and `float()` strip: the ASCII characters `\t` to `\r` and
    space, and the characters beyond ASCII for which `c.isspace()` holds (CPython turns
    those into spaces first). The ASCII separators `\x1c` to `\x1f` are not stripped,
    although `isspace` holds for them.
   */
  predicate IsSpace(c: char) {
    || ('\t' <= c <= '\r') || c == ' '
    || c == '\U{85}' || c == '\U{A0}' || c == '\U{1680}' || ('\U{2000}' <= c <= '\U{200A}')
    || c == '\U{2028}' || c == '\U{2029}' || c == '\U{202F}' || c == '\U{205F}' || c == '\U{3000}'
  }

  /** `s.strip()`. */
  function Strip(s: string): (t: string)
    ensures |t| <= |s|
    ensures t != [] ==> !IsSpace(t[0]) && !IsSpace(t[|t| - 1])
    decreases |s|
  {
    if s == [] then s
    else if IsSpace(s[0]) then Strip(s[1..])
    else if IsSpace(s[|s| - 1]) then Strip(s[..|s| - 1])
    else s
  }

  predicate IsDigit(c: char) {
    '0' <= c <= '9'
  }

  predicate AllDigits(d: string) {
    forall i :: 0 <= i < |d| ==> IsDigit(d[i])
  }

  /**
    Python's `digitpart ::= digit (["_"] digit)*` over ASCII digits: digits and underscores,
    a digit first and last, and never two underscores in a row.
   */
  predicate IsDigitPart(s: string) {
    && |s| > 0
    && IsDigit(s[0]) && IsDigit(s[|s| - 1])
    && (forall i :: 0 <= i < |s| ==> IsDigit(s[i]) || s[i] == '_')
    && (forall i :: 0 <= i < |s| - 1 ==> IsDigit(s[i]) || IsDigit(s[i + 1]))
  }

  /** The digits of a digit part, underscores dropped. */
  function DigitsOf(s: string): (d: string)
    ensures |d| <= |s|
    ensures (forall i :: 0 <= i < |s| ==> IsDigit(s[i]) || s[i] == '_') ==> AllDigits(d)
    ensures AllDigits(s) ==> d == s
  {
    if s == [] then ""
    else (if s[0] == '_' then "" else [s[0]]) + DigitsOf(s[1..])
  }

  /** The number a string of decimal digits denotes. */
  function DecimalValue(d: string): nat
    requires AllDigits(d)
  {
    if d == [] then 0 else DecimalValue(d[..|d| - 1]) * 10 + (d[|d| - 1] as int - '0' as int)
  }

  /** The value of a digit part. */
  function DigitPartValue(s: string): nat
    requires IsDigitPart(s)
  {
    DecimalValue(DigitsOf(s))
  }

  function Pow10(n: nat): (p: nat)
    ensures p >= 1
  {
    if n == 0 then 1 else 10 * Pow10(n - 1)
  }

  /** `10 ** e` as an exact real. */
  function Scale(e: int): (x: real)
    ensures x > 0.0
  {
    if e >= 0 then Pow10(e) as real else 1.0 / Pow10(-e) as real
  }

  /** A leading `+` or `-`: whether it was a minus, and the rest of the string. */
  function SplitSign(s: string): (r: (bool, string))
    ensures |r.1| <= |s|
  {
    if |s| > 0 && (s[0] == '+' || s[0] == '-') then (s[0] == '-', s[1..]) else (false, s)
  }

  /** `int(s)` in base 10, or `None` where Python raises ValueError. */
  function ParseInt(s: string): Option<int> {
    var (negative, body) := SplitSign(Strip(s));
    if IsDigitPart(body) then
      var n: int := DigitPartValue(body);
      Some(if negative then -n else n)
    else None
  }

  /** The index of the first character of `s` that is in `cs`, or `|s|` when there is none. */
  function IndexOfAny(s: string, cs: string): (i: nat)
    ensures i <= |s|
    ensures i < |s| ==> s[i] in cs
    ensures forall j :: 0 <= j < i ==> s[j] !in cs
    ensures (forall j :: 0 <= j < |s| ==> s[j] !in cs) ==> i == |s|
  {
    if s == [] || s[0] in cs then 0 else 1 + IndexOfAny(s[1..], cs)
  }

  /** ASCII lower case, as Python compares `inf`, `infinity` and `nan`. */
  function Lower(s: string): (t: string)
    ensures |t| == |s|
  {
    if s == [] then ""
    else [if 'A' <= s[0] <= 'Z' then (s[0] as int + 32) as char else s[0]] + Lower(s[1..])
  }

  /** Python's `number ::= [digitpart] "." digitpart | digitpart ["."]`, as its digits' value and the count of fraction digits. */
  function ParseMantissa(s: string): Option<(nat, nat)> {
    var dot := IndexOfAny(s, ".");
    if dot == |s| then
      if IsDigitPart(s) then Some((DigitPartValue(s), 0)) else None
    else
      var whole, fraction := s[..dot], s[dot + 1..];
      if whole == [] && IsDigitPart(fraction) then
        Some((DigitPartValue(fraction), |DigitsOf(fraction)|))
      else if IsDigitPart(whole) && fraction == [] then
        Some((DigitPartValue(whole), 0))
      else if IsDigitPart(whole) && IsDigitPart(fraction) then
        var digits := DigitsOf(whole) + DigitsOf(fraction);
        assert AllDigits(digits);
        Some((DecimalValue(digits), |DigitsOf(fraction)|))
      else None
  }

  /** Python's `exponent ::= ["e" | "E"] [sign] digitpart`, without the letter. */
  function ParseExponent(s: string): Option<int> {
    var (negative, body) := SplitSign(s);
    if IsDigitPart(body) then
      var n: int := DigitPartValue(body);
      Some(if negative then -n else n)
    else None
  }

  /** Python's `floatnumber ::= number [exponent]`, as an exact non-negative real. */
  function ParseFloatNumber(s: string): Option<real> {
    var e := IndexOfAny(s, "eE");
    match ParseMantissa(s[..e])
    case None => None
    case Some((digits, fractionLength)) =>
      var exponent := if e == |s| then Some(0) else ParseExponent(s[e + 1..]);
      match exponent
      case None => None
      case Some(x) => Some(digits as real * Scale(x - fractionLength))
  }

  /** `float(s)`, or `None` where Python raises ValueError. */
  function ParseFloat(s: string): Option<Float> {
    var (negative, body) := SplitSign(Strip(s));
    var word := Lower(body);
    if word == "inf" || word == "infinity" then Some(Infinity(negative))
    else if word == "nan" then Some(NaN)
    else
      match ParseFloatNumber(body)
      case None => None
      case Some(x) => Some(Finite(if negative then -x else x))
  }

  function Pow2(n: nat): (p: nat)
    ensures p >= 1
  {
    if n == 0 then 1 else 2 * Pow2(n - 1)
  }

  /**
    The least integer magnitude `float(i)` refuses: `2**1024 - 2**970`, halfway between
    the largest binary64 value and `2**1024`, from where rounding overflows.
   */
  const FLOAT_INT_LIMIT: int := Pow2(1024) - Pow2(970)

  /** `int(v)` for a decoded JSON value. */
  function ToInt(v: Json): (r: Result<int, Exception>)
    ensures v.JInt? ==> r == Ok(v.i)
    ensures v.JBool? ==> r == Ok(if v.b then 1 else 0)
    ensures v.JFloat? && v.f.Finite? && v.f.r >= 0.0 ==>
      r.Ok? && 0 <= r.value && r.value as real <= v.f.r < r.value as real + 1.0
    ensures v.JFloat? && v.f.Finite? && v.f.r < 0.0 ==>
      r.Ok? && r.value <= 0 && r.value as real - 1.0 < v.f.r <= r.value as real
    ensures v.JFloat? && v.f.Infinity? ==> r == Err(IntOfInfinity)
    ensures v.JFloat? && v.f.NaN? ==> r == Err(IntOfNaN)
    ensures v.JStr? ==> (r.Ok? <==> ParseInt(v.s).Some?)
    ensures v.JStr? && r.Ok? ==> Some(r.value) == ParseInt(v.s)
    ensures v.JStr? && r.Err? ==> r.error == IntLiteral(v.s)
    ensures v.JNull? || v.JArr? || v.JObj? ==> r == Err(IntArgumentType(TypeName(v)))
  {
    match v
    case JInt(i) => Ok(i)
    case JBool(b) => Ok(if b then 1 else 0)
    case JFloat(Finite(x)) => Ok(if x >= 0.0 then x.Floor else -((-x).Floor))
    case JFloat(Infinity(_)) => Err(IntOfInfinity)
    case JFloat(NaN) => Err(IntOfNaN)
    case JStr(s) =>
      (match ParseInt(s)
       case Some(i) => Ok(i)
       case None => Err(IntLiteral(s)))
    case _ => Err(IntArgumentType(TypeName(v)))
  }

  /** `float(v)` for a decoded JSON value. */
  function ToFloat(v: Json): (r: Result<Float, Exception>)
    ensures v.JFloat? ==> r == Ok(v.f)
    ensures v.JInt? ==> (r.Ok? <==> -FLOAT_INT_LIMIT < v.i < FLOAT_INT_LIMIT)
    ensures v.JInt? && r.Ok? ==> r.value == Finite(v.i as real)
    ensures v.JInt? && r.Err? ==> r.error == IntTooLargeForFloat
    ensures v.JBool? ==> r == Ok(Finite(if v.b then 1.0 else 0.0))
    ensures v.JStr? ==> (r.Ok? <==> ParseFloat(v.s).Some?)
    ensures v.JStr? && r.Ok? ==> Some(r.value) == ParseFloat(v.s)
    ensures v.JStr? && r.Err? ==> r.error == FloatLiteral(v.s)
    ensures v.JNull? || v.JArr? || v.JObj? ==> r == Err(FloatArgumentType(TypeName(v)))
  {
    match v
    case JFloat(f) => Ok(f)
    case JInt(i) =>
      if -FLOAT_INT_LIMIT < i < FLOAT_INT_LIMIT then Ok(Finite(i as real)) else Err(IntTooLargeForFloat)
    case JBool(b) => Ok(Finite(if b then 1.0 else 0.0))
    case JStr(s) =>
      (match ParseFloat(s)
       case Some(f) => Ok(f)
       case None => Err(FloatLiteral(s)))
    case _ => Err(FloatArgumentType(TypeName(v)))
  }

  /** `str(n)` for a natural number: its decimal digits without leading zeros. */
  function ShowNat(n: nat): (s: string)
    ensures |s| > 0 && AllDigits(s)
  {
    if n < 10 then [('0' as int + n) as char] else ShowNat(n / 10) + [('0' as int + n % 10) as char]
  }

  /** `str(i)` for an integer. */
  function ShowInt(i: int): string {
    if i < 0 then "-" + ShowNat(-i) else ShowNat(i)
  }

  /** The digits `str` writes denote the number they were written for. */
  lemma {:induction false} ShowNatValue(n: nat)
    ensures DecimalValue(ShowNat(n)) == n
  {
    if n >= 10 {
      var s := ShowNat(n);
      assert s[..|s| - 1] == ShowNat(n / 10);
      ShowNatValue(n / 10);
    }
  }

  /** `ParseInt(ShowInt(i)) == i`: every numeral `ShowInt` writes reads back unchanged. */
  lemma IntRoundTrip(i: int)
    ensures ParseInt(ShowInt(i)) == Some(i)
  {
    var digits := PrintedDigits(i);
    var s := ShowInt(i);
    assert SplitSign(Strip(s)) == (i < 0, digits);
  }

  /** `float(str(i)) == i`: an integer literal reads as a float of the same value. */
  lemma FloatOfIntLiteral(i: int)
    ensures ParseFloat(ShowInt(i)) == Some(Finite(i as real))
  {
    var digits := PrintedDigits(i);
    var s := ShowInt(i);
    assert SplitSign(Strip(s)) == (i < 0, digits);
    var word := Lower(digits);
    assert word[0] == digits[0];
    assert word != "inf" && word != "infinity" && word != "nan" by {
      assert IsDigit(digits[0]);
    }
    FloatOfDigits(digits);
  }

  /** A no-break space and an ASCII space around a numeral are stripped. */
  lemma NoBreakSpaceIsWhitespace()
    ensures ToInt(JStr("\U{A0}5 ")) == Ok(5)
  {
    var s := "\U{A0}5 ";
    assert Strip(s) == "5" by {
      assert IsSpace(s[0]) && s[1..] == "5 ";
      assert IsSpace("5 "[1]) && "5 "[..1] == "5";
    }
    assert SplitSign("5") == (false, "5");
    assert DigitsOf("5") == "5";
    assert DecimalValue("5") == 5 by {
      assert "5"[..0] == "";
    }
  }

  /** The ASCII separator `\x1c` is not whitespace to `int`, so the literal is refused. */
  lemma IntRefusesSeparator()
    ensures ToInt(JStr("\U{1C}5")) == Err(IntLiteral("\U{1C}5"))
  {
    var s := "\U{1C}5";
    assert !IsSpace(s[0]) && !IsSpace(s[1]);
    assert Strip(s) == s;
    assert SplitSign(s) == (false, s);
    assert !IsDigitPart(s);
  }

  /** Nor is `\x1f` to `float`. */
  lemma FloatRefusesSeparator()
    ensures ToFloat(JStr("\U{1F}7")) == Err(FloatLiteral("\U{1F}7"))
  {
    var s := "\U{1F}7";
    assert !IsSpace(s[0]) && !IsSpace(s[1]);
    assert Strip(s) == s;
    assert SplitSign(s) == (false, s);
    assert Lower(s) == s by {
      assert s[1..] == "7" && "7"[1..] == "";
    }
    assert IndexOfAny(s, "eE") == 2 && IndexOfAny(s, ".") == 2;
    assert s[..2] == s;
    assert !IsDigitPart(s);
    assert ParseFloatNumber(s) == None;
  }

  /** `int` reads back every integer `str` writes, as the coercion of a JSON string. */
  lemma IntTextRoundTrip(i: int)
    ensures ToInt(JStr(ShowInt(i))) == Ok(i)
  {
    IntRoundTrip(i);
  }

  /** `float` reads the text `str` writes for an integer as that integer's value. */
  lemma FloatTextOfInt(i: int)
    ensures ToFloat(JStr(ShowInt(i))) == Ok(Finite(i as real))
  {
    FloatOfIntLiteral(i);
  }

  /** A plain run of digits is a digit part, and a mantissa with no fraction digits. */
  lemma MantissaOfDigits(d: string)
    requires |d| > 0 && AllDigits(d)
    ensures IsDigitPart(d)
    ensures ParseMantissa(d) == Some((DecimalValue(d), 0))
  {
    assert forall j :: 0 <= j < |d| ==> d[j] !in ".";
    assert IndexOfAny(d, ".") == |d|;
    assert DigitsOf(d) == d;
  }

  /** A plain run of digits has no exponent marker. */
  lemma NoExponentMarker(d: string)
    requires AllDigits(d)
    ensures IndexOfAny(d, "eE") == |d|
  {
    forall j | 0 <= j < |d| ensures d[j] !in "eE" {
      assert IsDigit(d[j]);
    }
  }

  /** A plain run of digits reads as the exact value of those digits. */
  lemma FloatOfDigits(d: string)
    requires |d| > 0 && AllDigits(d)
    ensures IsDigitPart(d)
    ensures ParseFloatNumber(d) == Some(DecimalValue(d) as real)
  {
    NoExponentMarker(d);
    assert d[..|d|] == d;
    MantissaOfDigits(d);
    assert Scale(0) == 1.0;
  }

  /** What `str(i)` prints, split into its sign and its digits, with the digits' value. */
  lemma PrintedDigits(i: int) returns (digits: string)
    ensures digits == ShowNat(if i < 0 then -i else i)
    ensures IsDigitPart(digits) && DigitPartValue(digits) == (if i < 0 then -i else i)
    ensures Strip(ShowInt(i)) == ShowInt(i)
    ensures ShowInt(i) == (if i < 0 then "-" else "") + digits
  {
    var n := if i < 0 then -i else i;
    digits := ShowNat(n);
    ShowNatValue(n);
    assert DigitsOf(digits) == digits;
    var s := ShowInt(i);
    assert s[|s| - 1] == digits[|digits| - 1];
    StripUnpadded(s);
  }

  lemma StripUnpadded(s: string)
    requires |s| > 0 && (IsDigit(s[0]) || s[0] == '-') && IsDigit(s[|s| - 1])
    ensures Strip(s) == s
  {
  }
}
