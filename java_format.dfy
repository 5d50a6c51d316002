/**
 * `String.format` for the two format strings the admin handler uses:
 * `"%d"` on an `Integer` and `"%<width>.2f"` on a `Double`. Each rendering
 * has a parser beside it, and the round-trip lemmas show that a rendering
 * determines the number it was made from.
 */
module JavaFormat {
  import opened Wrappers
  import opened JavaLang

  predicate IsDigit(c: char) {
    '0' <= c <= '9'
  }

  function DigitChar(d: nat): (c: char)
    requires d < 10
    ensures IsDigit(c) && DigitValue(c) == d
  {
    ('0' as int + d) as char
  }

  function DigitValue(c: char): nat
    requires IsDigit(c)
  {
    c as int - '0' as int
  }

  /** The decimal digits of n, most significant first, without leading zeros. */
  function Digits(n: nat): (s: string)
    ensures s != []
    ensures IsDigit(s[0]) && IsDigit(s[|s| - 1])
    ensures n > 0 ==> s[0] != '0'
    ensures n == 0 ==> s == "0"
    decreases n
  {
    if n < 10 then [DigitChar(n)] else Digits(n / 10) + [DigitChar(n % 10)]
  }

  /** `"%d"` on an `int`: a minus sign for negative values, then the digits; no padding, no grouping. */
  function FormatInteger(i: int32): (s: string)
    ensures s != [] && NoEdgeSpace(s)
  {
    if i < 0 then "-" + Digits(-(i as int)) else Digits(i)
  }

  /**
   * A `double` as the `%f` conversion with precision 2 sees it: a finite value
   * already rounded to hundredths (sign kept apart, so that -0.001 is
   * `Finite(true, 0)` and renders as "-0.00"), NaN, or an infinity.
   */
  datatype Decimal2 = Finite(negative: bool, hundredths: nat) | NaN | Infinite(negative: bool)

  /** `"%.2f"`: the sign, the integer part, a point and exactly two decimals; "NaN", "Infinity", "-Infinity". */
  function FormatDecimal2(x: Decimal2): (s: string)
    ensures s != [] && NoEdgeSpace(s)
  {
    match x
    case Finite(negative, h) =>
      var cents := h % 100;
      (if negative then "-" else "") + Digits(h / 100) + "." + [DigitChar(cents / 10), DigitChar(cents % 10)]
    case NaN => "NaN"
    case Infinite(negative) => if negative then "-Infinity" else "Infinity"
  }

  /** A format string with one conversion: `"%d"`, or `"%<width>.2f"` (right-justified in `width`). */
  datatype FormatSpec = IntegerConversion | FixedConversion(width: nat)

  /** The boxed argument handed to `String.format`. */
  datatype FormatArg = IntArg(i: int32) | DoubleArg(x: Decimal2)

  /** `%d` takes an `Integer` and `%f` a `Double`; any other pairing throws IllegalFormatConversionException. */
  predicate Accepts(spec: FormatSpec, arg: FormatArg) {
    spec.IntegerConversion? <==> arg.IntArg?
  }

  /** The rendering of the argument with no field width. */
  function Unpadded(arg: FormatArg): string {
    match arg
    case IntArg(i) => FormatInteger(i)
    case DoubleArg(x) => FormatDecimal2(x)
  }

  /** `String.format(spec, arg)`. */
  function Format(spec: FormatSpec, arg: FormatArg): (r: string)
    requires Accepts(spec, arg)
    ensures spec.FixedConversion? ==> |r| >= spec.width
    ensures r == PadLeft(Unpadded(arg), if spec.FixedConversion? then spec.width else 0)
  {
    match arg
    case IntArg(i) => FormatInteger(i)
    case DoubleArg(x) => PadLeft(FormatDecimal2(x), spec.width)
  }

  /** Trimming the formatted field gives back the unpadded rendering. */
  lemma TrimFormat(spec: FormatSpec, arg: FormatArg)
    requires Accepts(spec, arg)
    ensures Trim(Format(spec, arg)) == Unpadded(arg)
  {
    match arg
    case IntArg(i) =>
      TrimClean(FormatInteger(i));
    case DoubleArg(x) =>
      var s := FormatDecimal2(x);
      var r := PadLeft(s, spec.width);
      TrimPadded(s, |r| - |s|);
  }

  /** Reads back a non-empty run of decimal digits. */
  function ParseNat(s: string): Option<nat>
    decreases |s|
  {
    if s == [] || !IsDigit(s[|s| - 1]) then None
    else if |s| == 1 then Some(DigitValue(s[0]))
    else
      match ParseNat(s[..|s| - 1])
      case None => None
      case Some(p) => Some(10 * p + DigitValue(s[|s| - 1]))
  }

  /** Reads back the output of `"%d"`. */
  function ParseInteger(s: string): Option<int> {
    if |s| > 0 && s[0] == '-' then
      match ParseNat(s[1..])
      case None => None
      case Some(n) => Some(-(n as int))
    else
      match ParseNat(s)
      case None => None
      case Some(n) => Some(n)
  }

  /** Reads back the output of `"%.2f"`. */
  function ParseDecimal2(s: string): Option<Decimal2> {
    if s != [] && IsDigit(s[|s| - 1]) then ParseFinite(s)
    else if s == "NaN" then Some(NaN)
    else if s == "Infinity" then Some(Infinite(false))
    else if s == "-Infinity" then Some(Infinite(true))
    else None
  }

  /** Reads back an optional minus sign, the integer digits, a point and two decimals. */
  function ParseFinite(s: string): Option<Decimal2> {
    var negative := |s| > 0 && s[0] == '-';
    var body := if negative then s[1..] else s;
    var n := |body|;
    if n < 4 || body[n - 3] != '.' || !IsDigit(body[n - 2]) || !IsDigit(body[n - 1]) then None
    else
      match ParseNat(body[..n - 3])
      case None => None
      case Some(units) => Some(Finite(negative, 100 * units + 10 * DigitValue(body[n - 2]) + DigitValue(body[n - 1])))
  }

  lemma {:induction false} DigitsRoundTrip(n: nat)
    ensures ParseNat(Digits(n)) == Some(n)
    decreases n
  {
    if n >= 10 {
      var s := Digits(n);
      DigitsRoundTrip(n / 10);
      assert s[..|s| - 1] == Digits(n / 10);
    }
  }

  /** The `"%d"` rendering determines the integer. */
  lemma FormatIntegerRoundTrip(i: int32)
    ensures ParseInteger(FormatInteger(i)) == Some(i)
  {
    var n := if i < 0 then -(i as int) else i as int;
    DigitsRoundTrip(n);
    SignedInteger(i < 0, Digits(n), n);
  }

  lemma SignedInteger(negative: bool, digits: string, n: nat)
    requires digits != [] && IsDigit(digits[0]) && ParseNat(digits) == Some(n)
    ensures ParseInteger((if negative then "-" else "") + digits) == Some(if negative then -(n as int) else n as int)
  {
    if negative {
      assert ("-" + digits)[1..] == digits;
    } else {
      assert ("" + digits) == digits;
    }
  }

  /** The `"%.2f"` rendering determines the rounded value. */
  lemma FormatDecimal2RoundTrip(x: Decimal2)
    ensures ParseDecimal2(FormatDecimal2(x)) == Some(x)
  {
    if x.Finite? {
      FiniteRoundTrip(x.negative, x.hundredths);
    }
  }

  lemma FiniteRoundTrip(negative: bool, h: nat)
    ensures ParseDecimal2(FormatDecimal2(Finite(negative, h))) == Some(Finite(negative, h))
  {
    var cents := h % 100;
    DigitsRoundTrip(h / 100);
    ParseFiniteOf(negative, Digits(h / 100), h / 100, DigitChar(cents / 10), DigitChar(cents % 10));
    CentsSplit(h);
  }

  /** `ParseFinite` reads back a sign, a digit run, a point and two digits. */
  lemma ParseFiniteOf(negative: bool, units: string, u: nat, tens: char, ones: char)
    requires units != [] && IsDigit(units[0]) && ParseNat(units) == Some(u)
    requires IsDigit(tens) && IsDigit(ones)
    ensures var s := (if negative then "-" else "") + units + "." + [tens, ones];
      && s != [] && IsDigit(s[|s| - 1])
      && ParseFinite(s) == Some(Finite(negative, 100 * u + 10 * DigitValue(tens) + DigitValue(ones)))
  {
    var body := units + "." + [tens, ones];
    var s := (if negative then "-" else "") + units + "." + [tens, ones];
    BodySplit(units, tens, ones);
    assert s == (if negative then "-" else "") + body;
    SignedBody(negative, units, body);
    assert s[|s| - 1] == ones;
    ParseFiniteFrom(s, negative, body, u, tens, ones);
  }

  lemma ParseFiniteFrom(s: string, negative: bool, body: string, u: nat, tens: char, ones: char)
    requires (|s| > 0 && s[0] == '-') == negative && (if negative then s[1..] else s) == body
    requires |body| >= 4 && body[|body| - 3] == '.' && body[|body| - 2] == tens && body[|body| - 1] == ones
    requires IsDigit(tens) && IsDigit(ones) && ParseNat(body[..|body| - 3]) == Some(u)
    ensures ParseFinite(s) == Some(Finite(negative, 100 * u + 10 * DigitValue(tens) + DigitValue(ones)))
  {
  }

  lemma SignedBody(negative: bool, units: string, body: string)
    requires units != [] && IsDigit(units[0]) && |body| > |units| && body[..|units|] == units
    ensures var s := (if negative then "-" else "") + body;
      (|s| > 0 && s[0] == '-') == negative && (if negative then s[1..] else s) == body
  {
    if !negative {
      assert body[0] == units[0];
    } else {
      assert ("-" + body)[1..] == body;
    }
  }

  lemma BodySplit(units: string, tens: char, ones: char)
    ensures var body := units + "." + [tens, ones];
      var n := |body|;
      n >= 3 && body[n - 3] == '.' && body[n - 2] == tens && body[n - 1] == ones && body[..n - 3] == units
  {
    var body := units + "." + [tens, ones];
    assert body[..|body| - 3] == units;
  }

  lemma CentsSplit(h: nat)
    ensures 100 * (h / 100) + 10 * ((h % 100) / 10) + (h % 100) % 10 == h
  {
  }
}
