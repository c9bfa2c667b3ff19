/** JavaScript values as the dashboard's KPI and report code sees them: record
    fields that may be missing or null, the truthiness test behind `x || d`,
    template-string interpolation, and the double arithmetic of the efficiency
    quotient, taken over exact reals. */
module JsValues {

  /** A field of a record read from the hosted database: the property may be
      absent (`undefined`), SQL NULL (`null`), or hold a value. */
  datatype Field<T> = Undefined | Null | Present(value: T)

  /** A numeric field is truthy when it holds a number other than 0. */
  predicate TruthyNum(f: Field<int>) {
    f.Present? && f.value != 0
  }

  /** A text field is truthy when it holds a non-empty string. */
  predicate TruthyText(f: Field<string>) {
    f.Present? && f.value != ""
  }

  /** `f || d` on a numeric field. */
  function NumOr(f: Field<int>, d: int): int {
    if TruthyNum(f) then f.value else d
  }

  /** `f || d` on a text field. */
  function TextOr(f: Field<string>, d: string): string {
    if TruthyText(f) then f.value else d
  }

  /** `f || 0` is the field's number when there is one and 0 otherwise: the
      falsy number 0 and a missing number read the same. */
  lemma NumOrZero(f: Field<int>)
    ensures NumOr(f, 0) == (if f.Present? then f.value else 0)
  {
  }

  /** `${f}` for a text field: JavaScript spells the two missing values out. */
  function TemplateText(f: Field<string>): string {
    match f
    case Undefined => "undefined"
    case Null => "null"
    case Present(v) => v
  }

  // ---------------------------------------------------------------------------
  // Integer to decimal text, as `${n}` renders an integer-valued number.

  function DigitChar(d: int): char
    requires 0 <= d < 10
  {
    ('0' as int + d) as char
  }

  predicate IsDigit(c: char) {
    '0' <= c <= '9'
  }

  /** The decimal digits of `n`, most significant first, without leading zeros. */
  function Digits(n: nat): (s: string)
    ensures |s| >= 1
    ensures forall i :: 0 <= i < |s| ==> IsDigit(s[i])
    decreases n
  {
    if n < 10 then [DigitChar(n)] else Digits(n / 10) + [DigitChar(n % 10)]
  }

  /** Decimal text of an integer: a minus sign for negative values. */
  function Decimal(n: int): (s: string)
    ensures |s| >= 1
    ensures n >= 0 ==> IsDigit(s[0])
    ensures n < 0 ==> s[0] == '-'
  {
    if n < 0 then "-" + Digits(-n) else Digits(n)
  }

  /** Reads a string of decimal digits back as a number. */
  function DigitsValue(s: string): int
    decreases |s|
  {
    if s == [] then 0 else DigitsValue(s[..|s| - 1]) * 10 + (s[|s| - 1] as int - '0' as int)
  }

  /** Reads decimal text with an optional leading minus sign. */
  function ParseDecimal(s: string): int {
    if |s| > 0 && s[0] == '-' then -DigitsValue(s[1..]) else DigitsValue(s)
  }

  lemma {:induction false} DigitsRoundTrip(n: nat)
    ensures DigitsValue(Digits(n)) == n
    decreases n
  {
    if n >= 10 {
      var s := Digits(n);
      assert s[..|s| - 1] == Digits(n / 10);
      DigitsRoundTrip(n / 10);
    }
  }

  /** Reading the decimal text of `n` gives back `n`. */
  lemma DecimalRoundTrip(n: int)
    ensures ParseDecimal(Decimal(n)) == n
  {
    if n < 0 {
      assert Decimal(n)[1..] == Digits(-n);
      DigitsRoundTrip(-n);
    } else {
      DigitsRoundTrip(n);
    }
  }

  /** Distinct integers render differently, so the text determines the number. */
  lemma DecimalInjective(a: int, b: int)
    ensures Decimal(a) == Decimal(b) <==> a == b
  {
    if Decimal(a) == Decimal(b) {
      DecimalRoundTrip(a);
      DecimalRoundTrip(b);
    }
  }

  // ---------------------------------------------------------------------------
  // The double arithmetic of the efficiency quotient, over exact reals.

  /** A JavaScript number: NaN, a signed infinity, or a finite value. Finite
      values are exact reals; signed zero is not distinguished. */
  datatype JsNumber = NaN | Infinity(negative: bool) | Finite(x: real)

  /** The number an arithmetic operator reads from a numeric field. */
  function ToNumber(f: Field<int>): JsNumber {
    match f
    case Undefined => NaN
    case Null => Finite(0.0)
    case Present(n) => Finite(n as real)
  }

  /** IEEE 754 division, every zero taken as +0. */
  function Divide(a: JsNumber, b: JsNumber): JsNumber {
    match (a, b)
    case (NaN, _) => NaN
    case (_, NaN) => NaN
    case (Infinity(_), Infinity(_)) => NaN
    case (Infinity(na), Finite(y)) => Infinity(if y < 0.0 then !na else na)
    case (Finite(_), Infinity(_)) => Finite(0.0)
    case (Finite(x), Finite(y)) =>
      if y != 0.0 then Finite(x / y)
      else if x == 0.0 then NaN
      else Infinity(x < 0.0)
  }

  /** IEEE 754 multiplication by a positive finite constant. */
  function Scale(a: JsNumber, k: real): JsNumber
    requires k > 0.0
  {
    match a
    case NaN => NaN
    case Infinity(n) => Infinity(n)
    case Finite(x) => Finite(x * k)
  }

  /** `a || 0` on a number: NaN and 0 are falsy and become 0. */
  function NumberOrZero(a: JsNumber): JsNumber {
    if a.NaN? then Finite(0.0) else a
  }

  /** Number formatting that the model leaves abstract: `toLocaleString()`,
      which depends on the browser's locale, and `toFixed(1)` on a finite
      value, which rounds a double. */
  datatype NumberFormat = NumberFormat(localeString: int -> string, fixed1: real -> string)

  /** `a.toFixed(1)`: a non-finite number renders as its name. */
  function ToFixed1(a: JsNumber, fmt: NumberFormat): string {
    match a
    case NaN => "NaN"
    case Infinity(n) => if n then "-Infinity" else "Infinity"
    case Finite(x) => fmt.fixed1(x)
  }
}
