/**
 * The PHP values the modelled code inspects, and the PHP built-ins it applies
 * to them: `empty()`, the `(bool)` and `(int)` casts, and WordPress's
 * `absint()` (the absolute value of the `(int)` cast).
 */
module PhpValue {

  /**
   * A PHP array key: an integer or a string. PHP stores a decimal integer
   * string key such as "5" as the integer key 5; the model assumes keys are
   * given in that normalised form (no `StrKey` holds decimal integer text).
   */
  datatype Key = IntKey(n: int) | StrKey(s: string)

  /**
   * A PHP value. An array is an ordered sequence of (key, value) entries;
   * floats and objects do not occur in the modelled code paths.
   */
  datatype Value =
    | Null
    | Bool(b: bool)
    | Int(i: int)
    | Str(s: string)
    | Arr(entries: seq<(Key, Value)>)

  /** PHP `empty()`: null, false, 0, "", "0" and the empty array. */
  predicate Empty(v: Value) {
    match v
    case Null => true
    case Bool(b) => !b
    case Int(i) => i == 0
    case Str(s) => s == "" || s == "0"
    case Arr(es) => |es| == 0
  }

  /** PHP's `(bool)` cast, which is also what `array_filter` keeps. */
  predicate Truthy(v: Value) {
    !Empty(v)
  }

  predicate IsDigit(c: char) {
    '0' <= c <= '9'
  }

  /** The characters PHP skips before a numeric string. */
  predicate IsWhitespace(c: char) {
    c == ' ' || c == '\t' || c == '\n' || c == '\r' || c == '\U{000B}' || c == '\U{000C}'
  }

  predicate AllDigits(s: string) {
    forall i | 0 <= i < |s| :: IsDigit(s[i])
  }

  function TrimLeadingWhitespace(s: string): (r: string)
    ensures |r| <= |s| && r == s[|s| - |r|..]
    ensures r != [] ==> !IsWhitespace(r[0])
  {
    if s != [] && IsWhitespace(s[0]) then TrimLeadingWhitespace(s[1..]) else s
  }

  /** The longest prefix of `s` made of decimal digits. */
  function DigitPrefix(s: string): (r: string)
    ensures r <= s && AllDigits(r)
    ensures |r| < |s| ==> !IsDigit(s[|r|])
  {
    if s != [] && IsDigit(s[0]) then [s[0]] + DigitPrefix(s[1..]) else []
  }

  function DigitValue(c: char): nat
    requires IsDigit(c)
  {
    c as int - '0' as int
  }

  /** The number a string of decimal digits denotes. */
  function DigitsValue(ds: string): nat
    requires AllDigits(ds)
  {
    if ds == [] then 0 else DigitsValue(ds[..|ds| - 1]) * 10 + DigitValue(ds[|ds| - 1])
  }

  /**
   * PHP's `(int)` cast of a string: leading whitespace is skipped, an
   * optional sign is read, then the longest run of digits; anything else
   * gives 0.
   */
  function IntOfString(s: string): int {
    var t := TrimLeadingWhitespace(s);
    var signed := t != [] && (t[0] == '-' || t[0] == '+');
    var magnitude: int := DigitsValue(DigitPrefix(if signed then t[1..] else t));
    if signed && t[0] == '-' then -magnitude else magnitude
  }

  /** PHP's `(int)` cast. */
  function ToInt(v: Value): int {
    match v
    case Null => 0
    case Bool(b) => if b then 1 else 0
    case Int(i) => i
    case Str(s) => IntOfString(s)
    case Arr(es) => if |es| == 0 then 0 else 1
  }

  /** WordPress `absint()`: `abs((int) $v)`. */
  function AbsInt(v: Value): nat {
    var n := ToInt(v);
    if n < 0 then -n else n
  }

  function DigitChar(d: nat): (c: char)
    requires d < 10
    ensures IsDigit(c) && DigitValue(c) == d
  {
    ('0' as int + d) as char
  }

  /** The decimal text PHP prints for a non-negative integer. */
  function DecimalString(n: nat): (s: string)
    ensures s != [] && AllDigits(s)
  {
    (if n < 10 then "" else DecimalString(n / 10)) + [DigitChar(n % 10)]
  }

  lemma {:induction false} DecimalStringValue(n: nat)
    ensures DigitsValue(DecimalString(n)) == n
  {
    var s := DecimalString(n);
    var last := DigitChar(n % 10);
    if n < 10 {
      assert s == [last];
      assert s[..0] == [];
    } else {
      var front := DecimalString(n / 10);
      assert s == front + [last];
      assert s[..|s| - 1] == front;
      DecimalStringValue(n / 10);
    }
  }

  lemma {:induction false} DigitPrefixOfDigits(s: string)
    requires AllDigits(s)
    ensures DigitPrefix(s) == s
  {
    if s != [] {
      DigitPrefixOfDigits(s[1..]);
    }
  }

  /** `(int)` of a non-empty run of digits is the number it denotes. */
  lemma IntOfDigits(d: string)
    requires d != [] && AllDigits(d)
    ensures IntOfString(d) == DigitsValue(d)
  {
    DigitPrefixOfDigits(d);
    var c := d[0];
    assert IsDigit(c);
    assert !IsWhitespace(c) && c != '-' && c != '+';
    assert TrimLeadingWhitespace(d) == d;
  }

  /** `(int)` of a minus sign and a run of digits is the negated number. */
  lemma IntOfNegativeDigits(d: string)
    requires AllDigits(d)
    ensures IntOfString("-" + d) == -(DigitsValue(d) as int)
  {
    var s := "-" + d;
    assert s[0] == '-' && !IsWhitespace(s[0]);
    assert TrimLeadingWhitespace(s) == s;
    assert s[1..] == d;
    DigitPrefixOfDigits(d);
    assert DigitsValue(DigitPrefix(s[1..])) == DigitsValue(d);
  }

  /** `(int)` reads back the decimal text PHP prints for a non-negative integer. */
  lemma IntOfDecimalString(n: nat)
    ensures IntOfString(DecimalString(n)) == n
  {
    IntOfDigits(DecimalString(n));
    DecimalStringValue(n);
  }

  /** `(int)` reads back the text PHP prints for a negative integer. */
  lemma IntOfNegativeDecimalString(n: nat)
    ensures IntOfString("-" + DecimalString(n)) == -(n as int)
  {
    IntOfNegativeDigits(DecimalString(n));
    DecimalStringValue(n);
  }

  /** `absint` of a stored decimal ID string is the ID itself. */
  lemma AbsIntOfDecimalString(n: nat)
    ensures AbsInt(Str(DecimalString(n))) == n
  {
    IntOfDecimalString(n);
  }
}
